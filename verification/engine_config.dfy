/**
 * The configuration value of the audio engine (`Engine::Config`): a device
 * name, an input channel count, an output channel count and a sample rate.
 * It is built from fixed defaults and changed only through `With*` builders,
 * each of which returns a copy with one field replaced. Two fields use a
 * sentinel: an empty device name and a sample rate of 0 both mean "use the
 * default".
 */
module EngineConfig {
  import opened FixedWidth
  import opened Wrappers

  const DEFAULT_DEVICE: string := "MacBook Pro Speakers"
  const DEFAULT_INPUTS: U32 := 2
  const DEFAULT_OUTPUTS: U32 := 2
  const DEFAULT_SAMPLE_RATE: U32 := 44100

  /**
   * A configuration. The source keeps the fields private behind the getters
   * `deviceName()`, `inputs()`, `outputs()` and `sampleRate()`; here the
   * getters are the datatype's destructors of the same names.
   */
  datatype Config = Config(deviceName: string, inputs: U32, outputs: U32, sampleRate: U32)

  /** A configuration whose sentinels are resolved: a real device name and a real rate. */
  predicate Resolved(c: Config) {
    c.deviceName != "" && c.sampleRate != 0
  }

  /** The default constructor `Config()`. */
  function DefaultConfig(): (c: Config)
    ensures c.deviceName == "MacBook Pro Speakers"
    ensures c.inputs == 2 && c.outputs == 2
    ensures c.sampleRate == 44100
    ensures Resolved(c)
  {
    Config(DEFAULT_DEVICE, DEFAULT_INPUTS, DEFAULT_OUTPUTS, DEFAULT_SAMPLE_RATE)
  }

  /** `WithDeviceName`: an empty name selects the default device. */
  function WithDeviceName(c: Config, name: string): (r: Config)
    ensures name != "" ==> r.deviceName == name
    ensures name == "" ==> r.deviceName == DEFAULT_DEVICE
    ensures r.deviceName != ""
    ensures r.inputs == c.inputs && r.outputs == c.outputs && r.sampleRate == c.sampleRate
  {
    c.(deviceName := if name == "" then DEFAULT_DEVICE else name)
  }

  /** `WithInputs`: the count is stored as given, 0 included. */
  function WithInputs(c: Config, inputs: U32): (r: Config)
    ensures r.inputs == inputs
    ensures r.deviceName == c.deviceName && r.outputs == c.outputs && r.sampleRate == c.sampleRate
  {
    c.(inputs := inputs)
  }

  /** `WithOutputs`: the count is stored as given, 0 included. */
  function WithOutputs(c: Config, outputs: U32): (r: Config)
    ensures r.outputs == outputs
    ensures r.deviceName == c.deviceName && r.inputs == c.inputs && r.sampleRate == c.sampleRate
  {
    c.(outputs := outputs)
  }

  /** `WithSampleRate`: a rate of 0 selects the default rate. */
  function WithSampleRate(c: Config, rate: U32): (r: Config)
    ensures rate != 0 ==> r.sampleRate == rate
    ensures rate == 0 ==> r.sampleRate == DEFAULT_SAMPLE_RATE
    ensures r.sampleRate != 0
    ensures r.deviceName == c.deviceName && r.inputs == c.inputs && r.outputs == c.outputs
  {
    c.(sampleRate := if rate == 0 then DEFAULT_SAMPLE_RATE else rate)
  }

  /** The fields of a configuration, indexed 0 to 3 in declaration order. */
  datatype Value = Name(name: string) | Count(n: U32)

  function Get(c: Config, f: nat): Value
    requires f < 4
  {
    if f == 0 then Name(c.deviceName)
    else if f == 1 then Count(c.inputs)
    else if f == 2 then Count(c.outputs)
    else Count(c.sampleRate)
  }

  /** One builder call, with its argument. */
  datatype Builder =
    | SetDeviceName(name: string)
    | SetInputs(inputs: U32)
    | SetOutputs(outputs: U32)
    | SetSampleRate(rate: U32)

  /** Which of the four fields a builder call replaces (0 to 3). */
  function Field(b: Builder): nat {
    match b
    case SetDeviceName(_) => 0
    case SetInputs(_) => 1
    case SetOutputs(_) => 2
    case SetSampleRate(_) => 3
  }

  /** Calls one builder on `c`. */
  function Apply(c: Config, b: Builder): Config {
    match b
    case SetDeviceName(name) => WithDeviceName(c, name)
    case SetInputs(n) => WithInputs(c, n)
    case SetOutputs(n) => WithOutputs(c, n)
    case SetSampleRate(rate) => WithSampleRate(c, rate)
  }

  /** Calls the builders of `bs` on `c`, left to right, as a chain `c.With…(…).With…(…)`. */
  function ApplyAll(c: Config, bs: seq<Builder>): Config
    decreases |bs|
  {
    if bs == [] then c else ApplyAll(Apply(c, bs[0]), bs[1..])
  }

  /** The last builder in `bs` that replaces field `f`, if there is one. */
  function LastOn(bs: seq<Builder>, f: nat): (r: Option<Builder>)
    ensures r.Some? ==> Field(r.value) == f
    decreases |bs|
  {
    if bs == [] then None
    else if Field(bs[|bs| - 1]) == f then Some(bs[|bs| - 1])
    else LastOn(bs[..|bs| - 1], f)
  }

  /** A builder keeps a resolved configuration resolved. */
  lemma ApplyResolved(c: Config, b: Builder)
    requires Resolved(c)
    ensures Resolved(Apply(c, b))
  {
  }

  /** Invariant: no chain of builders from `Config()` reaches an empty device name or a rate of 0. */
  lemma {:induction false} ChainResolved(c: Config, bs: seq<Builder>)
    requires Resolved(c)
    ensures Resolved(ApplyAll(c, bs))
    decreases |bs|
  {
    if bs != [] {
      ApplyResolved(c, bs[0]);
      ChainResolved(Apply(c, bs[0]), bs[1..]);
    }
  }

  /** Every configuration built from `Config()` is resolved. */
  lemma DefaultChainResolved(bs: seq<Builder>)
    ensures Resolved(ApplyAll(DefaultConfig(), bs))
  {
    ChainResolved(DefaultConfig(), bs);
  }

  /** Each builder is idempotent: calling it twice with the same argument is calling it once. */
  lemma ApplyIdempotent(c: Config, b: Builder)
    ensures Apply(Apply(c, b), b) == Apply(c, b)
  {
  }

  /** Builders on different fields commute. */
  lemma ApplyCommutes(c: Config, a: Builder, b: Builder)
    requires Field(a) != Field(b)
    ensures Apply(Apply(c, a), b) == Apply(Apply(c, b), a)
  {
  }

  /** A builder on a field leaves the value of every other field as it was. */
  lemma ApplyFrame(c: Config, b: Builder, f: nat)
    requires f < 4 && Field(b) != f
    ensures Get(Apply(c, b), f) == Get(c, f)
  {
  }

  /** Calling one more builder at the end of a chain. */
  lemma {:induction false} ApplyAllSnoc(c: Config, bs: seq<Builder>, b: Builder)
    ensures ApplyAll(c, bs + [b]) == Apply(ApplyAll(c, bs), b)
    decreases |bs|
  {
    if bs != [] {
      assert (bs + [b])[1..] == bs[1..] + [b];
      ApplyAllSnoc(Apply(c, bs[0]), bs[1..], b);
    }
  }

  /**
   * In any chain of builders, each field ends up as the last builder on that
   * field left it, and keeps the starting value when no builder touches it.
   */
  lemma {:induction false} ChainLastWins(c: Config, bs: seq<Builder>, f: nat)
    requires f < 4
    ensures LastOn(bs, f).None? ==> Get(ApplyAll(c, bs), f) == Get(c, f)
    ensures LastOn(bs, f).Some? ==> Get(ApplyAll(c, bs), f) == Get(Apply(c, LastOn(bs, f).value), f)
    decreases |bs|
  {
    if bs != [] {
      var init, last := bs[..|bs| - 1], bs[|bs| - 1];
      assert bs == init + [last];
      ApplyAllSnoc(c, init, last);
      ChainLastWins(c, init, f);
    }
  }
}
