# Polychrome: engine configuration and WebP frame conversion

This project models two small pieces of value logic from the polychrome
repository and proves properties of them in Dafny.

- **`Engine::Config`** (module `EngineConfig`, `engine_config.dfy`): the
  audio engine's configuration value. It holds a device name, an input channel
  count, an output channel count and a sample rate. The default constructor
  fills in "MacBook Pro Speakers", 2, 2 and 44100. Each `With*` builder returns
  a copy with one field replaced. An empty device name falls back to the
  default device, and a sample rate of 0 falls back to 44100. The C++ struct
  becomes a datatype. Each builder becomes a function from a configuration and
  an argument to a new configuration. The getters `deviceName()`, `inputs()`,
  `outputs()` and `sampleRate()` are the datatype's destructors. A chain of
  builder calls is modelled as a sequence of `Builder` values applied left to
  right (`ApplyAll`).
- **`decode` and `add`** (module `WebpDecode`, `webp_decode.dfy`): the NIF
  functions of the Rust WebP crate. `decode` walks the frames of an animated
  WebP file. It turns RGB frame data into 3-byte pixels and RGBA frame data
  into 3-byte pixels with the alpha byte dropped. It keeps each frame's
  timestamp and records the last frame's dimensions as the animation size. It
  fails with `None` when a frame has any other colour mode. Reading the file
  and constructing the WebP decoder are an input to the model: either the
  decoder's frames in order (`Frames`) or a failure (`OpenFailed`).
  `decode` is a method with a loop over the frames that grows the animation's
  frame sequence. The per-frame conversion (`chunks_exact(n)` followed by
  `map`) is a set of functions with lemmas.

`fixed_width.dfy` declares the machine integer types (`U8`, `U32`, `I32`,
`I64`) as subset types of `int`. `wrappers.dfy` declares `Option`.

Builders cannot change their receiver: a `Config` is a value and every
builder returns a new one, which matches the copy of `*this` in each C++
builder.

## Model

| member | source | states |
|---|---|---|
| EngineConfig.DefaultConfig | beak/src/engine.h:19-25 | `Config()` has device "MacBook Pro Speakers", 2 inputs, 2 outputs, rate 44100, and is resolved (non-empty name, non-zero rate) |
| EngineConfig.WithDeviceName | beak/src/engine.h:27-32 | a non-empty name is stored unchanged; an empty name gives the default device; the name is never empty afterwards; inputs, outputs and rate are the receiver's |
| EngineConfig.WithInputs | beak/src/engine.h:33-38 | the count is stored exactly, 0 included; name, outputs and rate are the receiver's |
| EngineConfig.WithOutputs | beak/src/engine.h:39-44 | the count is stored exactly, 0 included; name, inputs and rate are the receiver's |
| EngineConfig.WithSampleRate | beak/src/engine.h:45-50 | a non-zero rate is stored exactly; 0 gives 44100; the rate is never 0 afterwards; name, inputs and outputs are the receiver's |
| EngineConfig.ApplyResolved | beak/src/engine.h:27-50 | every builder keeps a resolved configuration resolved |
| EngineConfig.ChainResolved | beak/src/engine.h:27-50 | any chain of builders from a resolved configuration ends in a resolved one |
| EngineConfig.DefaultChainResolved | beak/src/engine.h:19-50 | no chain of builders starting from `Config()` reaches an empty device name or a sample rate of 0 |
| EngineConfig.ApplyIdempotent | beak/src/engine.h:27-50 | calling a builder twice with the same argument equals calling it once |
| EngineConfig.ApplyCommutes | beak/src/engine.h:27-50 | builders on different fields commute |
| EngineConfig.ApplyFrame | beak/src/engine.h:29-48 | a builder leaves every field other than its own as it was |
| EngineConfig.ApplyAllSnoc | beak/src/engine.h:27-50 | appending a builder to a chain applies it to the chain's result |
| EngineConfig.ChainLastWins | beak/src/engine.h:27-50 | after any chain, each field holds what the last builder on it set, or its starting value when no builder touched it |
| WebpDecode.Add | octopus/native/octopus_webp/src/lib.rs:4-7 | the result equals a + b when the sum fits in i64, and is congruent to a + b modulo 2^64 always |
| WebpDecode.ChunksExactLength | octopus/native/octopus_webp/src/lib.rs:29 | `chunks_exact(n)` yields `|s| / n` chunks; the dropped remainder is shorter than `n` |
| WebpDecode.ChunksExactAt | octopus/native/octopus_webp/src/lib.rs:29 | chunk i is exactly the n elements of `s` from offset n * i |
| WebpDecode.RgbPixels | octopus/native/octopus_webp/src/lib.rs:29 | RGB data of length d gives d / 3 pixels, pixel i being bytes 3i to 3i+3 |
| WebpDecode.RgbaPixels | octopus/native/octopus_webp/src/lib.rs:34-38 | RGBA data of length d gives d / 4 pixels, pixel i being bytes 4i to 4i+3, so the alpha byte is dropped |
| WebpDecode.FramePixels | octopus/native/octopus_webp/src/lib.rs:27-45 | a frame converts exactly when its mode is RGB or RGBA; every pixel has 3 bytes; count and content as for RGB and RGBA data |
| WebpDecode.Decode | octopus/native/octopus_webp/src/lib.rs:18-50 | a read or decoder failure gives `None`; otherwise `None` exactly when some frame has an unsupported colour mode; on success the frames match the input one-to-one in order with their pixels and unchanged timestamps, and the size is the last frame's dimensions, or (0, 0) for no frames |

## Left out

- `Engine::configure`, both `playSound` overloads, `changeListenerCallback`, `configureDeviceManager` and `configureGraph`: the header only declares them, and their bodies are not part of this model.
- The JUCE device manager, processing graph, player and node handling, and the `Error` and processor types from `error.h` and `processor.h`: foreign library code, not part of this model.
- The engine's `std::mutex` and any threading discipline: concurrency is not modelled.
- `std::fs::read` and the `webp_animation` decoder: file I/O and a foreign decoder, modelled only as the `Opened` input (frames in order, or a failure). Which colour modes the decoder can report is taken as RGB, RGBA, BGR and BGRA; only RGB and RGBA matter to `decode`.
- The `eprintln!` message on an unsupported colour mode, the rustler `NifStruct` derivation and `rustler::init!`: logging and Elixir glue.
- WebpDecode.Add: models `i64` addition as a release build runs it (two's-complement wrap-around); a debug build panics on overflow instead, which the model does not capture.
