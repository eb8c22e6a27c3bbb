// Applying and removing I/O limits through cgroups v1 and v2, with exceptions at every step.

module Throttle {
  import opened Options

  datatype Key = Rbps | Wbps | Riops | Wiops

  /** The limits of a device; None is no limit ("max" in v2, 0 in v1). */
  datatype Limits = Limits(rbps: Option<nat>, wbps: Option<nat>, riops: Option<nat>, wiops: Option<nat>)

  const UNLIMITED := Limits(None, None, None, None)

  function Set(l: Limits, k: Key, v: Option<nat>): Limits
  {
    match k
    case Rbps => l.(rbps := v)
    case Wbps => l.(wbps := v)
    case Riops => l.(riops := v)
    case Wiops => l.(wiops := v)
  }

  /** The limits in force, by device; a device that is absent has none. */
  type Devices = map<string, Limits>

  function LimitsOf(d: Devices, dev: string): Limits { if dev in d then d[dev] else UNLIMITED }

  datatype Kind = IopsOnly | BandwidthOnly | Both

  /** What validation lets through as a limit. */
  type Limit = n: nat | n > 0 witness 1

  /** `ThrottleParams` after validation. */
  datatype Params = Params(kind: Kind, readIops: Limit, writeIops: Limit, readBps: Limit, writeBps: Limit)

  datatype Setting = Setting(key: Key, value: Option<nat>)

  /** What is run in the privileged pod: a line for v2's io.max, a line for one of v1's
      blkio.throttle files, or a read-back. */
  datatype Command =
    | IoMax(dev: string, settings: seq<Setting>)
    | Blkio(key: Key, dev: string, value: nat)
    | Cat

  datatype CgroupVersion = V1 | V2

  // ---- What the kernel does with a line

  function SetAll(l: Limits, settings: seq<Setting>): Limits
    decreases |settings|
  {
    if settings == [] then l
    else SetAll(Set(l, settings[0].key, settings[0].value), settings[1..])
  }

  function Effect(d: Devices, c: Command): Devices
  {
    match c
    case IoMax(dev, settings) => d[dev := SetAll(LimitsOf(d, dev), settings)]
    case Blkio(key, dev, value) => d[dev := Set(LimitsOf(d, dev), key, if value == 0 then None else Some(value))]
    case Cat => d
  }

  function Effects(d: Devices, cs: seq<Command>): Devices
  {
    if cs == [] then d else Effect(Effects(d, cs[..|cs| - 1]), cs[|cs| - 1])
  }

  // ---- The commands the plugin sends

  function ApplyV2(dev: string, p: Params): seq<Command>
  {
    var settings :=
      match p.kind
      case IopsOnly => [Setting(Riops, Some(p.readIops)), Setting(Wiops, Some(p.writeIops))]
      case BandwidthOnly => [Setting(Rbps, Some(p.readBps)), Setting(Wbps, Some(p.writeBps))]
      case Both => [Setting(Rbps, Some(p.readBps)), Setting(Wbps, Some(p.writeBps)),
                    Setting(Riops, Some(p.readIops)), Setting(Wiops, Some(p.writeIops))];
    [IoMax(dev, settings), Cat]
  }

  function ApplyV1(dev: string, p: Params): seq<Command>
  {
    (if p.kind.BandwidthOnly? then [] else [Blkio(Riops, dev, p.readIops), Blkio(Wiops, dev, p.writeIops)])
    + (if p.kind.IopsOnly? then [] else [Blkio(Rbps, dev, p.readBps), Blkio(Wbps, dev, p.writeBps)])
    + [Cat, Cat, Cat, Cat]
  }

  function Apply(v: CgroupVersion, dev: string, p: Params): seq<Command>
  {
    if v.V2? then ApplyV2(dev, p) else ApplyV1(dev, p)
  }

  function Reset(v: CgroupVersion, dev: string): seq<Command>
  {
    if v.V2? then
      [IoMax(dev, [Setting(Rbps, None), Setting(Wbps, None), Setting(Riops, None), Setting(Wiops, None)])]
    else
      [Blkio(Rbps, dev, 0), Blkio(Wbps, dev, 0), Blkio(Riops, dev, 0), Blkio(Wiops, dev, 0)]
  }

  // ---- Both cgroup versions do the same

  /** The limits that the configuration asks for, on top of what is in force. */
  function Wanted(before: Limits, p: Params): Limits
  {
    var b := if p.kind.IopsOnly? then before else before.(rbps := Some(p.readBps), wbps := Some(p.writeBps));
    if p.kind.BandwidthOnly? then b else b.(riops := Some(p.readIops), wiops := Some(p.writeIops))
  }

  lemma {:induction false} EffectsJoin(d: Devices, a: seq<Command>, b: seq<Command>)
    ensures Effects(d, a + b) == Effects(Effects(d, a), b)
  {
    if b == [] {
      assert a + b == a;
    } else {
      EffectsJoin(d, a, b[..|b| - 1]);
      assert (a + b)[..|a + b| - 1] == a + b[..|b| - 1];
    }
  }

  lemma One(d: Devices, c: Command)
    ensures Effects(d, [c]) == Effect(d, c)
  {
    assert [c][..0] == [];
  }

  lemma Two(d: Devices, c: Command, e: Command)
    ensures Effects(d, [c, e]) == Effect(Effect(d, c), e)
  {
    assert [c, e][..1] == [c];
    One(d, c);
  }

  lemma Four(d: Devices, c: Command, e: Command, f: Command, g: Command)
    ensures Effects(d, [c, e, f, g]) == Effect(Effect(Effect(Effect(d, c), e), f), g)
  {
    assert [c, e, f, g] == [c, e] + [f, g];
    EffectsJoin(d, [c, e], [f, g]);
    Two(d, c, e);
    Two(Effect(Effect(d, c), e), f, g);
  }

  lemma SetTwo(l: Limits, a: Setting, b: Setting)
    ensures SetAll(l, [a, b]) == Set(Set(l, a.key, a.value), b.key, b.value)
  {
    assert [a, b][1..] == [b] && [b][1..] == [];
    assert SetAll(Set(l, a.key, a.value), [b]) == Set(Set(l, a.key, a.value), b.key, b.value);
  }

  lemma SetFour(l: Limits, a: Setting, b: Setting, c: Setting, e: Setting)
    ensures SetAll(l, [a, b, c, e]) == SetAll(SetAll(l, [a, b]), [c, e])
  {
    assert [a, b, c, e][1..] == [b, c, e] && [b, c, e][1..] == [c, e];
    SetTwo(l, a, b);
  }

  /** Complete application under either version puts exactly the wanted limits on the device and
      leaves the others alone; a reset, from any state, leaves it without limits. */
  lemma ApplyGivesWanted(d: Devices, v: CgroupVersion, dev: string, p: Params)
    ensures Effects(d, Apply(v, dev, p)) == d[dev := Wanted(LimitsOf(d, dev), p)]
    ensures var before, after := LimitsOf(d, dev), Effects(d, Apply(v, dev, p))[dev];
            && after.rbps == (if p.kind.IopsOnly? then before.rbps else Some(p.readBps))
            && after.wbps == (if p.kind.IopsOnly? then before.wbps else Some(p.writeBps))
            && after.riops == (if p.kind.BandwidthOnly? then before.riops else Some(p.readIops))
            && after.wiops == (if p.kind.BandwidthOnly? then before.wiops else Some(p.writeIops))
  {
    hide Effects;
    var l := LimitsOf(d, dev);
    var ri, wi := Setting(Riops, Some(p.readIops)), Setting(Wiops, Some(p.writeIops));
    var rb, wb := Setting(Rbps, Some(p.readBps)), Setting(Wbps, Some(p.writeBps));
    if v.V2? {
      SetTwo(l, ri, wi);
      SetTwo(l, rb, wb);
      SetFour(l, rb, wb, ri, wi);
      SetTwo(SetAll(l, [rb, wb]), ri, wi);
      Two(d, ApplyV2(dev, p)[0], Cat);
    } else {
      var iops := [Blkio(Riops, dev, p.readIops), Blkio(Wiops, dev, p.writeIops)];
      var bps := [Blkio(Rbps, dev, p.readBps), Blkio(Wbps, dev, p.writeBps)];
      var cats := [Cat, Cat, Cat, Cat];
      Two(d, iops[0], iops[1]);
      var mid := Effects(d, iops);
      Two(d, bps[0], bps[1]);
      Two(mid, bps[0], bps[1]);
      EffectsJoin(d, iops, bps);
      EffectsJoin(d, iops + bps, cats);
      EffectsJoin(d, iops, cats);
      EffectsJoin(d, bps, cats);
      Four(Effects(d, iops + bps), Cat, Cat, Cat, Cat);
      Four(Effects(d, iops), Cat, Cat, Cat, Cat);
      Four(Effects(d, bps), Cat, Cat, Cat, Cat);
      assert [] + bps == bps && iops + [] == iops;
    }
  }

  lemma ResetGivesUnlimited(d: Devices, v: CgroupVersion, dev: string)
    ensures Effects(d, Reset(v, dev)) == d[dev := Limits(None, None, None, None)]
  {
    hide Effects;
    if v.V2? {
      One(d, Reset(v, dev)[0]);
      var l := LimitsOf(d, dev);
      SetFour(l, Setting(Rbps, None), Setting(Wbps, None), Setting(Riops, None), Setting(Wiops, None));
      SetTwo(l, Setting(Rbps, None), Setting(Wbps, None));
      SetTwo(l.(rbps := None, wbps := None), Setting(Riops, None), Setting(Wiops, None));
    } else {
      Four(d, Blkio(Rbps, dev, 0), Blkio(Wbps, dev, 0), Blkio(Riops, dev, 0), Blkio(Wiops, dev, 0));
    }
  }

  /** The versions agree. */
  lemma VersionsAgree(d: Devices, dev: string, p: Params)
    ensures Effects(d, ApplyV1(dev, p)) == Effects(d, ApplyV2(dev, p))
    ensures Effects(d, Reset(V1, dev)) == Effects(d, Reset(V2, dev))
  {
    ApplyGivesWanted(d, V1, dev, p);
    ApplyGivesWanted(d, V2, dev, p);
    ResetGivesUnlimited(d, V1, dev);
    ResetGivesUnlimited(d, V2, dev);
  }

  // ---- Interrupted sequences

  predicate Touches(c: Command, dev: string)
  {
    c.Cat? || c.dev == dev
  }

  lemma {:induction false} OthersUntouched(d: Devices, cs: seq<Command>, dev: string, other: string)
    requires other != dev && forall i :: 0 <= i < |cs| ==> Touches(cs[i], dev)
    ensures LimitsOf(Effects(d, cs), other) == LimitsOf(d, other)
  {
    if cs != [] {
      OthersUntouched(d, cs[..|cs| - 1], dev, other);
    }
  }

  /** A command that sets at least one limit, and none to "no limit". */
  predicate Limiting(c: Command)
  {
    match c
    case Cat => false
    case Blkio(_, _, value) => value > 0
    case IoMax(_, settings) =>
      settings != [] && forall i :: 0 <= i < |settings| ==> settings[i].value.Some?
  }

  lemma {:induction false} SetAllLimits(l: Limits, settings: seq<Setting>)
    requires forall i :: 0 <= i < |settings| ==> settings[i].value.Some?
    requires settings != [] || l != UNLIMITED
    ensures SetAll(l, settings) != UNLIMITED
    decreases |settings|
  {
    if settings != [] {
      SetAllLimits(Set(l, settings[0].key, settings[0].value), settings[1..]);
    }
  }

  /** How an interrupted application leaves the device: without limits exactly when it had none
      and no writing command took effect. */
  lemma {:induction false} InterruptedApply(d: Devices, v: CgroupVersion, dev: string, p: Params, n: nat)
    requires n <= |Apply(v, dev, p)|
    ensures LimitsOf(Effects(d, Apply(v, dev, p)[..n]), dev) == UNLIMITED <==>
            LimitsOf(d, dev) == UNLIMITED && n == 0
  {
    var cs := Apply(v, dev, p);
    ApplyShape(v, dev, p);
    if n > 0 {
      InterruptedApply(d, v, dev, p, n - 1);
      assert cs[..n][..n - 1] == cs[..n - 1];
      var before := Effects(d, cs[..n - 1]);
      var c := cs[n - 1];
      if c.IoMax? {
        SetAllLimits(LimitsOf(before, dev), c.settings);
      }
    }
  }

  /** The first command of an application writes a limit, and every command that writes does. */
  lemma ApplyShape(v: CgroupVersion, dev: string, p: Params)
    ensures var cs := Apply(v, dev, p);
            && |cs| > 0 && Limiting(cs[0])
            && forall i :: 0 <= i < |cs| ==> Touches(cs[i], dev) && (cs[i].Cat? || Limiting(cs[i]))
  {
  }

  lemma ResetShape(v: CgroupVersion, dev: string)
    ensures forall i :: 0 <= i < |Reset(v, dev)| ==> Touches(Reset(v, dev)[i], dev)
  {
  }

  // ---- The run

  /** What the privileged part of a run does, in order. */
  datatype Event = Applied | ResetDone | ResetRaised | PodDeletion

  /** Ordinary: an `Exception`. Abrupt: one that `except Exception` does not catch. */
  datatype Raised = Nothing | Ordinary | Abrupt

  /** What the n-th command issued meets: an exception, before or after it took effect, or none. */
  datatype Hit = Hit(raised: Raised, late: bool)

  /** No exception hits the commands numbered from..from+n-1. */
  ghost predicate Calm(hits: nat -> Hit, from: nat, n: nat)
  {
    forall k: nat :: from <= k < from + n ==> hits(k).raised.Nothing?
  }

  class Host {
    var devices: Devices

    constructor (devices: Devices)
      ensures this.devices == devices
    {
      this.devices := devices;
    }

    /** Runs commands, numbered from `at`, one after another; `took` of them took effect. */
    method ExecAll(cs: seq<Command>, hits: nat -> Hit, at: nat) returns (raised: Raised, took: nat)
      modifies this
      ensures took <= |cs| && devices == Effects(old(devices), cs[..took])
      ensures raised.Nothing? ==> took == |cs|
      ensures raised.Nothing? <==> Calm(hits, at, |cs|)
    {
      took := 0;
      raised := Nothing;
      while took < |cs|
        invariant took <= |cs| && devices == Effects(old(devices), cs[..took]) && raised.Nothing?
        invariant Calm(hits, at, took)
      {
        assert cs[..took + 1][..took] == cs[..took];
        var hit := hits(at + took);
        if hit.raised.Nothing? || hit.late {
          devices := Effect(devices, cs[took]);
          took := took + 1;
        }
        if !hit.raised.Nothing? {
          return hit.raised, took;
        }
      }
    }

    /** `_remove_throttle`. */
    method RemoveThrottle(v: CgroupVersion, dev: string, hits: nat -> Hit, at: nat) returns (raised: Raised)
      modifies this
      ensures raised.Nothing? ==> devices == old(devices)[dev := UNLIMITED]
      ensures raised.Nothing? <==> Calm(hits, at, |Reset(v, dev)|)
      ensures forall other :: other != dev ==> LimitsOf(devices, other) == LimitsOf(old(devices), other)
    {
      hide Calm;
      var took;
      ResetShape(v, dev);
      ResetGivesUnlimited(devices, v, dev);
      raised, took := ExecAll(Reset(v, dev), hits, at);
      assert Reset(v, dev)[..|Reset(v, dev)|] == Reset(v, dev);
      forall other | other != dev ensures LimitsOf(devices, other) == LimitsOf(old(devices), other) {
        OthersUntouched(old(devices), Reset(v, dev)[..took], dev, other);
      }
    }

    /** The guarded part of `run`, from the deployed pod to its deletion. `setup` is what detecting
        the version, finding the path and registering raise; `unusable`: no path, or an unsafe one;
        `wait` is what the wait raises; `cut`: an abrupt exception out of the deletion. `code` is
        None when an exception leaves the method; `took` counts the commands of the application
        that took effect. */
    method Run(v: CgroupVersion, dev: string, p: Params, setup: Raised, unusable: bool, wait: Raised,
               hits: nat -> Hit, cut: bool)
        returns (code: Option<int>, events: seq<Event>, took: nat)
      modifies this
      // whatever happens, only this device is affected
      ensures forall other :: other != dev ==> LimitsOf(devices, other) == LimitsOf(old(devices), other)
      // once the limits are applied, the run ends with none in force, or its last reset has raised
      ensures Applied in events ==>
                LimitsOf(devices, dev) == UNLIMITED || LastReset(events) == Some(ResetRaised)
      ensures LastReset(events) == Some(ResetDone) ==> LimitsOf(devices, dev) == UNLIMITED
      ensures Applied in events <==>
              setup.Nothing? && !unusable && forall k: nat :: k < |Apply(v, dev, p)| ==> hits(k).raised.Nothing?
      // the pod is deleted last, after an application only once a reset was attempted, and always
      // unless that reset raised
      ensures PodDeletion !in events[..if events == [] then 0 else |events| - 1]
      ensures Applied in events ==> LastReset(events).Some?
      ensures PodDeletion !in events ==> LastReset(events) == Some(ResetRaised)
      // success means applied, held and removed, and nothing else keeps the run from it
      ensures code == Some(0) ==> events == [Applied, ResetDone, PodDeletion]
      ensures code == Some(0) <==>
              && setup.Nothing? && !unusable && wait.Nothing? && !cut
              && forall k: nat :: k < |Apply(v, dev, p)| + |Reset(v, dev)| ==> hits(k).raised.Nothing?
      // an application that did not complete is not undone here
      ensures Applied !in events ==>
                && LastReset(events).None? && took <= |Apply(v, dev, p)|
                && devices == Effects(old(devices), Apply(v, dev, p)[..took])
    {
      hide LastReset, Calm, Apply, Reset;
      LastResetOfNone();
      CalmJoin(hits, |Apply(v, dev, p)|, |Reset(v, dev)|);
      CalmMeans(hits, |Apply(v, dev, p)|);
      CalmMeans(hits, |Apply(v, dev, p)| + |Reset(v, dev)|);
      events, took := [], 0;
      var raised := setup;
      assert Apply(v, dev, p)[..0] == [];
      var applied := false;
      var issued := 0;
      if raised.Nothing? && !unusable {
        ApplyShape(v, dev, p);
        raised, took := ExecAll(Apply(v, dev, p), hits, 0);
        issued := |Apply(v, dev, p)|;
        forall other | other != dev ensures LimitsOf(devices, other) == LimitsOf(old(devices), other) {
          OthersUntouched(old(devices), Apply(v, dev, p)[..took], dev, other);
        }
        if raised.Nothing? {
          applied := true;
          events := [Applied];
          LastResetSnoc([], Applied);
          raised := wait;
          if raised.Nothing? {
            raised := RemoveThrottle(v, dev, hits, issued);
            issued := issued + |Reset(v, dev)|;
            LastResetSnoc(events, if raised.Nothing? then ResetDone else ResetRaised);
            events := events + [if raised.Nothing? then ResetDone else ResetRaised];
            if raised.Nothing? {
              applied := false;
            }
          }
        }
      }
      if applied {
        var again := RemoveThrottle(v, dev, hits, issued);
        LastResetSnoc(events, if again.Nothing? then ResetDone else ResetRaised);
        events := events + [if again.Nothing? then ResetDone else ResetRaised];
        if again.Abrupt? {
          return None, events, took;
        }
      }
      LastResetSnoc(events, PodDeletion);
      events := events + [PodDeletion];
      if raised.Abrupt? || cut {
        code := None;
      } else {
        code := Some(if raised.Nothing? && !unusable then 0 else 1);
      }
    }
  }

  lemma CalmMeans(hits: nat -> Hit, n: nat)
    ensures Calm(hits, 0, n) <==> forall k: nat :: k < n ==> hits(k).raised.Nothing?
  {
  }

  lemma CalmJoin(hits: nat -> Hit, a: nat, b: nat)
    ensures Calm(hits, 0, a + b) <==> Calm(hits, 0, a) && Calm(hits, a, b)
  {
  }

  function LastReset(events: seq<Event>): Option<Event>
  {
    if events == [] then None
    else
      var last := events[|events| - 1];
      if last.ResetDone? || last.ResetRaised? then Some(last) else LastReset(events[..|events| - 1])
  }

  lemma LastResetOfNone()
    ensures LastReset([]) == None
  {
  }

  lemma LastResetSnoc(events: seq<Event>, e: Event)
    ensures LastReset(events + [e]) == if e.ResetDone? || e.ResetRaised? then Some(e) else LastReset(events)
  {
    assert (events + [e])[..|events|] == events;
  }
}
