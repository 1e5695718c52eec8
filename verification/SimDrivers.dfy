/** Two drivers around the simulator. The simulator is nondeterministic: a call
    `simulate(n)` runs `n` ticks and reports that its limit was reached, or
    stops earlier for another cause. A script lists the outcomes of successive
    calls; every run is covered up to any point by some script. */
module SimDrivers {

  datatype Cause = Limit | Checkpoint | Other

  /** `elapsed` counts only if the call stops before its limit. */
  datatype Exit = Exit(cause: Cause, elapsed: nat)

  /** How far a call with limit `n` gets. */
  function Ticks(e: Exit, n: nat): (t: nat)
    ensures t <= n
    ensures e.cause == Limit ==> t == n
  {
    if e.cause == Limit || e.elapsed > n then n else e.elapsed
  }

  // ---- Switching CPUs back and forth ------------------------------------------

  type Cpu = int
  type Pairs = seq<(Cpu, Cpu)>

  datatype Call = Simulate(at: int, limit: int) | SwitchCpus(at: int, pairs: Pairs)

  function Swapped(ps: Pairs): (r: Pairs)
    ensures |r| == |ps| && forall k :: 0 <= k < |ps| ==> r[k] == (ps[k].1, ps[k].0)
  {
    if ps == [] then [] else Swapped(ps[..|ps| - 1]) + [(ps[|ps| - 1].1, ps[|ps| - 1].0)]
  }

  /** The calls made from tick `now` on. */
  function Calls(ps: Pairs, now: int, maxtick: int, freq: nat, script: seq<Exit>): seq<Call>
    decreases |script|
  {
    [Simulate(now, freq)] +
    if script == [] || script[0].cause != Limit then []
    else
      var t := now + freq;
      [SwitchCpus(t, ps)] +
      if maxtick - t <= freq then [Simulate(t, maxtick - t)]
      else Calls(Swapped(ps), t, maxtick, freq, script[1..])
  }

  method SwapPairs(ps: Pairs) returns (tmp: Pairs)
    ensures tmp == Swapped(ps)
  {
    tmp := [];
    for i := 0 to |ps|
      invariant tmp == Swapped(ps[..i])
    {
      assert ps[..i + 1][..i] == ps[..i];
      tmp := tmp + [(ps[i].1, ps[i].0)];
    }
    assert ps[..|ps|] == ps;
  }

  /** `done` and then the calls from here on make up all calls. */
  lemma CallsFrom(all: seq<Call>, done: seq<Call>, ps: Pairs, now: int, maxtick: int, freq: nat, script: seq<Exit>)
    requires done + Calls(ps, now, maxtick, freq, script) == all
    ensures script == [] || script[0].cause != Limit ==> all == done + [Simulate(now, freq)]
    ensures script != [] && script[0].cause == Limit ==>
      var t, next := now + freq, done + [Simulate(now, freq)] + [SwitchCpus(now + freq, ps)];
      if maxtick - t <= freq then all == next + [Simulate(t, maxtick - t)]
      else all == next + Calls(Swapped(ps), t, maxtick, freq, script[1..])
  {
    if script != [] && script[0].cause == Limit {
      var t := now + freq;
      var rest := if maxtick - t <= freq then [Simulate(t, maxtick - t)]
                  else Calls(Swapped(ps), t, maxtick, freq, script[1..]);
      assert Calls(ps, now, maxtick, freq, script) == [Simulate(now, freq)] + ([SwitchCpus(t, ps)] + rest);
      hide Calls, Swapped;
      Regroup(done, [Simulate(now, freq)], [SwitchCpus(t, ps)], rest);
    }
  }

  lemma Regroup(a: seq<Call>, b: seq<Call>, c: seq<Call>, d: seq<Call>)
    ensures a + (b + (c + d)) == a + b + c + d
  {
  }

  method RepeatSwitch(list: Pairs, start: int, maxtick: int, freq: nat, script: seq<Exit>) returns (calls: seq<Call>)
    ensures calls == Calls(list, start, maxtick, freq, script)
  {
    hide Calls;
    calls := [];
    var ps, tick, rest := list, start, script;
    ghost var all := Calls(list, start, maxtick, freq, script);
    while true
      invariant calls + Calls(ps, tick, maxtick, freq, rest) == all
      decreases |rest|
    {
      CallsFrom(all, calls, ps, tick, maxtick, freq, rest);
      calls := calls + [Simulate(tick, freq)];
      if rest == [] {
        return;
      }
      var e := rest[0];
      rest := rest[1..];
      tick := tick + Ticks(e, freq);
      if e.cause != Limit {
        return;
      }
      calls := calls + [SwitchCpus(tick, ps)];
      ps := SwapPairs(ps);
      if maxtick - tick <= freq {
        calls := calls + [Simulate(tick, maxtick - tick)];
        return;
      }
    }
  }

  function Firsts(ps: Pairs): seq<Cpu> {
    seq(|ps|, k requires 0 <= k < |ps| => ps[k].0)
  }

  function Seconds(ps: Pairs): seq<Cpu> {
    seq(|ps|, k requires 0 <= k < |ps| => ps[k].1)
  }

  /** The CPUs that run after some calls: switching replaces them. */
  function Active(initial: seq<Cpu>, cs: seq<Call>): seq<Cpu> {
    if cs == [] then initial
    else if cs[|cs| - 1].SwitchCpus? then Seconds(cs[|cs| - 1].pairs)
    else Active(initial, cs[..|cs| - 1])
  }

  /** Every switch is away from the CPUs that are running. */
  predicate SwitchesFromActive(initial: seq<Cpu>, cs: seq<Call>) {
    forall i :: 0 <= i < |cs| && cs[i].SwitchCpus? ==> Firsts(cs[i].pairs) == Active(initial, cs[..i])
  }

  lemma {:induction false} ActiveAppend(initial: seq<Cpu>, a: seq<Call>, b: seq<Call>)
    ensures Active(initial, a + b) == Active(Active(initial, a), b)
  {
    if b == [] {
      assert a + b == a;
    } else {
      assert (a + b)[..|a + b| - 1] == a + b[..|b| - 1];
      ActiveAppend(initial, a, b[..|b| - 1]);
    }
  }

  lemma {:induction false} SwitchFromActive(ps: Pairs, now: int, maxtick: int, freq: nat, script: seq<Exit>)
    ensures SwitchesFromActive(Firsts(ps), Calls(ps, now, maxtick, freq, script))
    decreases |script|
  {
    if script != [] && script[0].cause == Limit {
      var t := now + freq;
      CallsUnfold(ps, now, maxtick, freq, script);
      Turned(ps);
      if maxtick - t > freq {
        SwitchFromActive(Swapped(ps), t, maxtick, freq, script[1..]);
      }
      var rest := if maxtick - t <= freq then [Simulate(t, maxtick - t)]
                  else Calls(Swapped(ps), t, maxtick, freq, script[1..]);
      hide Calls, Firsts, Seconds, Swapped;
      FirstSwitch(ps, now, freq, t, rest);
    }
  }

  lemma CallsUnfold(ps: Pairs, now: int, maxtick: int, freq: nat, script: seq<Exit>)
    requires script != [] && script[0].cause == Limit
    ensures var t := now + freq;
            Calls(ps, now, maxtick, freq, script) ==
            [Simulate(now, freq), SwitchCpus(t, ps)] +
            if maxtick - t <= freq then [Simulate(t, maxtick - t)]
            else Calls(Swapped(ps), t, maxtick, freq, script[1..])
  {
  }

  lemma Turned(ps: Pairs)
    ensures Firsts(Swapped(ps)) == Seconds(ps)
  {
  }

  /** A switch away from the running CPUs, and then calls that start with the ones
      it switched to. */
  lemma FirstSwitch(ps: Pairs, now: int, freq: nat, t: int, rest: seq<Call>)
    requires SwitchesFromActive(Seconds(ps), rest)
    ensures SwitchesFromActive(Firsts(ps), [Simulate(now, freq), SwitchCpus(t, ps)] + rest)
  {
    hide Firsts, Seconds;
    var a, two := [Simulate(now, freq)], [Simulate(now, freq), SwitchCpus(t, ps)];
    var cs := two + rest;
    assert two[..1] == a && a[..0] == [];
    assert Active(Firsts(ps), a) == Firsts(ps) && Active(Firsts(ps), two) == Seconds(ps);
    hide Active;
    forall i | 0 <= i < |cs| && cs[i].SwitchCpus? ensures Firsts(cs[i].pairs) == Active(Firsts(ps), cs[..i]) {
      if i >= 2 {
        assert cs[..i] == two + rest[..i - 2] && cs[i] == rest[i - 2];
        ActiveAppend(Firsts(ps), two, rest[..i - 2]);
      } else {
        assert i == 1 && cs[..1] == a;
      }
    }
  }

  predicate WithinMax(cs: seq<Call>, maxtick: int) {
    forall i :: 0 <= i < |cs| && cs[i].Simulate? ==> cs[i].at + cs[i].limit <= maxtick
  }

  /** No slice passes `maxtick` exactly when the first one fits. The caller
      checks that `maxtick` exceeds the frequency, which is not enough when the
      simulation does not start at tick 0. */
  lemma {:induction false} SlicesFitIff(ps: Pairs, now: int, maxtick: int, freq: nat, script: seq<Exit>)
    ensures WithinMax(Calls(ps, now, maxtick, freq, script), maxtick) <==> now + freq <= maxtick
    decreases |script|
  {
    if script == [] || script[0].cause != Limit {
      assert Calls(ps, now, maxtick, freq, script) == [Simulate(now, freq)];
      assert [Simulate(now, freq)][0] == Simulate(now, freq);
    } else {
      var t := now + freq;
      CallsUnfold(ps, now, maxtick, freq, script);
      var rest := if maxtick - t <= freq then [Simulate(t, maxtick - t)]
                  else Calls(Swapped(ps), t, maxtick, freq, script[1..]);
      if maxtick - t > freq {
        SlicesFitIff(Swapped(ps), t, maxtick, freq, script[1..]);
      } else {
        assert WithinMax(rest, maxtick);
      }
      hide Calls, Swapped;
      FirstSlice(ps, now, freq, t, rest, maxtick);
    }
  }

  lemma FirstSlice(ps: Pairs, now: int, freq: nat, t: int, rest: seq<Call>, maxtick: int)
    ensures WithinMax([Simulate(now, freq), SwitchCpus(t, ps)] + rest, maxtick) <==>
            now + freq <= maxtick && WithinMax(rest, maxtick)
  {
    var cs := [Simulate(now, freq), SwitchCpus(t, ps)] + rest;
    assert cs[0] == Simulate(now, freq) && forall i :: 0 <= i < |rest| ==> rest[i] == cs[i + 2];
    assert forall i :: 2 <= i < |cs| ==> cs[i] == rest[i - 2];
  }

  function Switches(cs: seq<Call>): nat {
    if cs == [] then 0 else (if cs[0].SwitchCpus? then 1 else 0) + Switches(cs[1..])
  }

  /** There are at most as many switches as periods fit before `maxtick`. */
  lemma {:induction false} SwitchCount(ps: Pairs, now: int, maxtick: int, freq: nat, script: seq<Exit>)
    requires now + freq <= maxtick
    ensures Switches(Calls(ps, now, maxtick, freq, script)) * freq <= maxtick - now
    decreases |script|
  {
    if script != [] && script[0].cause == Limit {
      var t := now + freq;
      var rest := if maxtick - t <= freq then [Simulate(t, maxtick - t)]
                  else Calls(Swapped(ps), t, maxtick, freq, script[1..]);
      CallsUnfold(ps, now, maxtick, freq, script);
      if maxtick - t > freq {
        SwitchCount(Swapped(ps), t, maxtick, freq, script[1..]);
      } else {
        assert Switches(rest) == 0;
      }
      hide Calls, Swapped;
      OneSwitch(Simulate(now, freq), SwitchCpus(t, ps), rest);
      hide Switches;
      OneMorePeriod(Switches(rest), freq);
    } else {
      assert Calls(ps, now, maxtick, freq, script) == [Simulate(now, freq)];
    }
  }

  lemma OneMorePeriod(n: nat, freq: nat)
    ensures (1 + n) * freq == freq + n * freq
  {
  }

  lemma OneSwitch(a: Call, b: Call, rest: seq<Call>)
    requires a.Simulate? && b.SwitchCpus?
    ensures Switches([a, b] + rest) == 1 + Switches(rest)
  {
    SwitchesCons(a, [b] + rest);
    SwitchesCons(b, rest);
    assert [a, b] + rest == [a] + ([b] + rest);
  }

  lemma SwitchesCons(c: Call, cs: seq<Call>)
    ensures Switches([c] + cs) == (if c.SwitchCpus? then 1 else 0) + Switches(cs)
  {
    assert ([c] + cs)[1..] == cs;
  }

  // ---- Taking checkpoints at fixed ticks ----------------------------------------

  datatype Plan = Plan(when: int, period: nat, maxtick: int, maxCheckpoints: int)

  /** The exits left once checkpoint instructions of the program are skipped. */
  function SkipCheckpoints(s: seq<Exit>): (r: seq<Exit>)
    ensures |r| <= |s|
    ensures r == [] || r[0].cause != Checkpoint
  {
    if s != [] && s[0].cause == Checkpoint then SkipCheckpoints(s[1..]) else s
  }

  /** How many more periods the limits on ticks and on checkpoints allow. */
  function Room(p: Plan, now: int, taken: int): nat
    decreases p.maxCheckpoints - taken
  {
    if taken >= p.maxCheckpoints || now + p.period > p.maxtick then 0
    else 1 + Room(p, now + p.period, taken + 1)
  }

  /** The ticks of the checkpoints after the first. A checkpoint instruction as
      the first exit of a period makes that period the last. */
  function Periodic(p: Plan, now: int, room: nat, s: seq<Exit>): seq<int>
    decreases |s|
  {
    if room == 0 || s == [] then []
    else if s[0].cause == Limit then [now + p.period] + Periodic(p, now + p.period, room - 1, s[1..])
    else
      var r := SkipCheckpoints(s);
      if r != [] && r[0].cause == Limit then [now + p.period] else []
  }

  function Dumps(p: Plan, start: int, s: seq<Exit>): seq<int> {
    var r := SkipCheckpoints(s);
    if start > p.when || r == [] || r[0].cause != Limit then []
    else [p.when] + Periodic(p, p.when, Room(p, p.when, 1), r[1..])
  }

  /** Simulates up to `target`, ignoring checkpoint exits. `ok` is false when the
      script ends before another exit. */
  method RunTo(target: int, now: int, s: seq<Exit>) returns (ok: bool, cause: Cause, tick: int, rest: seq<Exit>)
    requires now <= target
    ensures var r := SkipCheckpoints(s);
            && (ok <==> r != [])
            && (ok ==> cause == r[0].cause && rest == r[1..])
            && (ok && cause == Limit ==> tick == target)
    ensures now <= tick <= target && cause != Checkpoint
  {
    tick, rest, cause := now, s, Other;
    while rest != []
      invariant now <= tick <= target && cause == Other
      invariant SkipCheckpoints(rest) == SkipCheckpoints(s)
      decreases |rest|
    {
      var e := rest[0];
      rest := rest[1..];
      tick := tick + Ticks(e, target - tick);
      if e.cause != Checkpoint {
        return true, e.cause, tick, rest;
      }
    }
    ok := false;
  }

  /** The tick branch of the driver; `dumps` holds the tick of every checkpoint
      that was written. */
  method ScriptCheckpoints(p: Plan, start: int, script: seq<Exit>) returns (dumps: seq<int>)
    ensures dumps == Dumps(p, start, script)
  {
    dumps := [];
    if p.when < start {
      return;
    }
    var ok, cause, tick, s := RunTo(p.when, start, script);
    if !ok || cause != Limit {
      return;
    }
    dumps := [tick];
    var num, simTicks, exitCause := 1, p.when, cause;
    while num < p.maxCheckpoints && exitCause == Limit
      invariant tick == simTicks
      invariant exitCause == Limit ==>
        dumps + Periodic(p, simTicks, Room(p, simTicks, num), s) == Dumps(p, start, script)
      invariant exitCause != Limit ==> dumps == Dumps(p, start, script)
      decreases |s|, if exitCause == Limit then 1 else 0
    {
      if simTicks + p.period > p.maxtick || s == [] {
        break;
      }
      ghost var before, was := dumps, s;
      exitCause := s[0].cause;
      simTicks := simTicks + p.period;
      ok, cause, tick, s := RunTo(simTicks, tick, s);
      if !ok || cause != Limit {
        assert dumps == Dumps(p, start, script);
        return;
      }
      dumps := dumps + [tick];
      num := num + 1;
    }
  }

  // ---- What every run of the driver keeps ----------------------------------------

  lemma {:induction false} PeriodicTicks(p: Plan, now: int, taken: int, s: seq<Exit>)
    ensures var d := Periodic(p, now, Room(p, now, taken), s);
            && |d| <= Room(p, now, taken)
            && forall k :: 0 <= k < |d| ==> d[k] == now + (k + 1) * p.period && d[k] <= p.maxtick
    decreases |s|
  {
    var room := Room(p, now, taken);
    if room > 0 && s != [] && s[0].cause == Limit {
      PeriodicTicks(p, now + p.period, taken + 1, s[1..]);
      var d, e := Periodic(p, now, room, s), Periodic(p, now + p.period, room - 1, s[1..]);
      forall k | 0 <= k < |d| ensures d[k] == now + (k + 1) * p.period && d[k] <= p.maxtick {
        if k > 0 {
          assert d[k] == e[k - 1];
          assert now + p.period + k * p.period == now + (k + 1) * p.period;
        }
      }
    }
  }

  lemma {:induction false} RoomBound(p: Plan, now: int, taken: int)
    ensures Room(p, now, taken) <= if p.maxCheckpoints > taken then p.maxCheckpoints - taken else 0
    decreases p.maxCheckpoints - taken
  {
    if taken < p.maxCheckpoints && now + p.period <= p.maxtick {
      RoomBound(p, now + p.period, taken + 1);
    }
  }

  /** Main result on the driver: whatever the simulator does, the checkpoints
      are `period` ticks apart from `when` on without gaps, all but the first lie
      within `maxtick`, and there are at most as many as asked for, but one. */
  lemma CheckpointTicks(p: Plan, start: int, script: seq<Exit>)
    ensures var d := Dumps(p, start, script);
            && (forall k :: 0 <= k < |d| ==> d[k] == p.when + k * p.period)
            && (forall k :: 1 <= k < |d| ==> d[k] <= p.maxtick)
            && |d| <= if p.maxCheckpoints > 1 then p.maxCheckpoints else 1
  {
    var r := SkipCheckpoints(script);
    if !(start > p.when || r == [] || r[0].cause != Limit) {
      var d := Periodic(p, p.when, Room(p, p.when, 1), r[1..]);
      PeriodicTicks(p, p.when, 1, r[1..]);
      RoomBound(p, p.when, 1);
      assert forall k :: 1 <= k <= |d| ==> Dumps(p, start, script)[k] == d[k - 1];
    }
  }

  // ---- Checkpoint instructions of the program -------------------------------------

  /** The periodic checkpoints if checkpoint instructions were ignored, as the
      caller of the driver says they are. */
  function Promised(p: Plan, now: int, room: nat, s: seq<Exit>): seq<int>
    decreases |s|
  {
    var r := SkipCheckpoints(s);
    if room == 0 || r == [] || r[0].cause != Limit then []
    else [now + p.period] + Promised(p, now + p.period, room - 1, r[1..])
  }

  function LeadingLimits(s: seq<Exit>): (n: nat)
    ensures n <= |s|
  {
    if s != [] && s[0].cause == Limit then 1 + LeadingLimits(s[1..]) else 0
  }

  /** After some undisturbed periods comes one that is interrupted by a
      checkpoint instruction but completed, and another one that would be
      completed and is still allowed. */
  predicate Disturbed(room: nat, s: seq<Exit>) {
    var n := LeadingLimits(s);
    var r := SkipCheckpoints(s[n..]);
    && n + 1 < room
    && n < |s| && s[n].cause == Checkpoint
    && r != [] && r[0].cause == Limit
    && var t := SkipCheckpoints(r[1..]); t != [] && t[0].cause == Limit
  }

  /** Checkpoint instructions are ignored exactly in the runs that are not
      disturbed: the inner loop that skips them does not update the variable
      that the outer loop tests, so the driver stops. */
  lemma {:induction false} IgnoredIff(p: Plan, now: int, room: nat, s: seq<Exit>)
    ensures Periodic(p, now, room, s) == Promised(p, now, room, s) <==> !Disturbed(room, s)
    decreases |s|
  {
    if room > 0 && s != [] {
      if s[0].cause == Limit {
        var t := s[1..];
        IgnoredIff(p, now + p.period, room - 1, t);
        assert s[1 + LeadingLimits(t)..] == t[LeadingLimits(t)..];
        assert Disturbed(room, s) <==> Disturbed(room - 1, t);
        var a, b := Periodic(p, now + p.period, room - 1, t), Promised(p, now + p.period, room - 1, t);
        assert ([now + p.period] + a)[1..] == a && ([now + p.period] + b)[1..] == b;
      } else {
        assert s[0..] == s;
      }
    }
  }
}
