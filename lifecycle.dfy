/**
 * The lifecycle handler: one process-wide registry of services with
 * optional start, stop and health-check hooks, and three flags. Services
 * start in registration order and stop in the reverse order. Startup and
 * shutdown each run at most once; a start that throws ends startup without
 * marking it complete, and a stop that throws is logged and shutdown goes
 * on with the next service. What a hook does when it is called is part of
 * the service description: absent, returns, or throws.
 */
module Lifecycle {
  import opened Wrappers

  datatype Hook = Absent | Returns | Throws

  /** A registered service: its name, what its `check` reports if it has one, and its `start` and `stop` hooks. */
  datatype Service = Service(name: string, check: Option<bool>, start: Hook, stop: Hook)

  datatype Phase = Starting | Stopping

  /** Which services a name list collects: those whose hook is called, or those whose hook throws. */
  datatype Which = Called | Failed

  function HookOf(s: Service, p: Phase): Hook {
    if p == Starting then s.start else s.stop
  }

  predicate Selects(w: Which, h: Hook) {
    if w == Called then h != Absent else h == Throws
  }

  function Reverse<T>(s: seq<T>): (r: seq<T>)
    ensures |r| == |s|
    ensures forall i :: 0 <= i < |s| ==> r[i] == s[|s| - 1 - i]
  {
    if s == [] then [] else [s[|s| - 1]] + Reverse(s[..|s| - 1])
  }

  lemma Associative<T>(a: seq<T>, b: seq<T>, c: seq<T>)
    ensures (a + b) + c == a + (b + c)
  {
  }

  /** Reversing a prefix one element longer puts that element in front. */
  lemma {:induction false} ReversePrefix<T>(s: seq<T>, i: nat)
    requires i < |s|
    ensures Reverse(s[..i + 1]) == [s[i]] + Reverse(s[..i])
  {
    assert s[..i + 1][..i] == s[..i];
  }

  lemma {:induction false} ReverseAppend<T>(a: seq<T>, b: seq<T>)
    ensures Reverse(a + b) == Reverse(b) + Reverse(a)
  {
    var r := Reverse(a + b);
    var q := Reverse(b) + Reverse(a);
    assert |r| == |q|;
    forall i | 0 <= i < |r|
      ensures r[i] == q[i]
    {
      if i < |b| {
        assert q[i] == Reverse(b)[i];
      } else {
        assert q[i] == Reverse(a)[i - |b|];
      }
    }
  }

  /** The names of the services, in order, whose hook for phase `p` is selected by `w`. */
  function Names(ss: seq<Service>, p: Phase, w: Which): (r: seq<string>)
    ensures |r| <= |ss|
  {
    if ss == [] then []
    else
      var last := ss[|ss| - 1];
      Names(ss[..|ss| - 1], p, w) + (if Selects(w, HookOf(last, p)) then [last.name] else [])
  }

  lemma {:induction false} NamesAppend(a: seq<Service>, b: seq<Service>, p: Phase, w: Which)
    ensures Names(a + b, p, w) == Names(a, p, w) + Names(b, p, w)
    decreases |b|
  {
    if b == [] {
      assert a + b == a;
    } else {
      var init := b[..|b| - 1];
      assert (a + b)[..|a + b| - 1] == a + init;
      NamesAppend(a, init, p, w);
    }
  }

  /** Listing the names of the reversed registry gives the reversed list of names. */
  lemma {:induction false} NamesReverse(ss: seq<Service>, p: Phase, w: Which)
    ensures Names(Reverse(ss), p, w) == Reverse(Names(ss, p, w))
    decreases |ss|
  {
    if ss != [] {
      var last := ss[|ss| - 1];
      var init := ss[..|ss| - 1];
      var tail := if Selects(w, HookOf(last, p)) then [last.name] else [];
      assert Reverse(ss) == [last] + Reverse(init);
      NamesAppend([last], Reverse(init), p, w);
      assert [last][..0] == [];
      assert Names([last], p, w) == tail;
      NamesReverse(init, p, w);
      ReverseAppend(Names(init, p, w), tail);
      assert Reverse(tail) == tail;
    }
  }

  /** The index of the first service whose hook for `p` throws, or the registry length when none does. */
  function FirstThrow(ss: seq<Service>, p: Phase): (k: nat)
    ensures k <= |ss|
    ensures k < |ss| ==> HookOf(ss[k], p) == Throws
    ensures forall j :: 0 <= j < k ==> HookOf(ss[j], p) != Throws
  {
    if ss == [] then 0
    else if HookOf(ss[0], p) == Throws then 0
    else 1 + FirstThrow(ss[1..], p)
  }

  /** Every service's check that exists reports healthy. */
  predicate AllHealthy(ss: seq<Service>) {
    forall i :: 0 <= i < |ss| ==> ss[i].check != Some(false)
  }

  /** The handler's static state, and the services it has started and stopped so far. */
  class LifecycleHandler {
    var startupServices: seq<Service>
    var shutdownServices: seq<Service>
    var startupStarted: bool
    var startupCompleted: bool
    var shutdownStarted: bool
    /** Names of services whose `start` returned, in call order. */
    var started: seq<string>
    /** Names of services whose `stop` was called, in call order. */
    var stopped: seq<string>
    /** Names of services whose `stop` threw, in call order. */
    var stopFailures: seq<string>

    /** The stop list is always the start list reversed, and only a started startup completes. */
    ghost predicate Valid()
      reads this
    {
      shutdownServices == Reverse(startupServices) &&
      (startupCompleted ==> startupStarted)
    }

    constructor ()
      ensures Valid()
      ensures startupServices == [] && shutdownServices == []
      ensures !startupStarted && !startupCompleted && !shutdownStarted
      ensures started == [] && stopped == [] && stopFailures == []
    {
      startupServices := [];
      shutdownServices := [];
      startupStarted := false;
      startupCompleted := false;
      shutdownStarted := false;
      started := [];
      stopped := [];
      stopFailures := [];
    }

    function IsAlive(): (alive: bool)
      reads this
      ensures alive <==> !shutdownStarted
    {
      !shutdownStarted
    }

    function IsReady(): (ready: bool)
      reads this
      ensures ready <==> startupCompleted && !shutdownStarted
    {
      startupCompleted && !shutdownStarted
    }

    /** `register`: each service is pushed onto the start list and put in front of the stop list. */
    method Register(services: seq<Service>)
      requires Valid()
      modifies this
      ensures Valid()
      ensures startupServices == old(startupServices) + services
      ensures shutdownServices == Reverse(services) + old(shutdownServices)
      ensures startupStarted == old(startupStarted) && startupCompleted == old(startupCompleted)
      ensures shutdownStarted == old(shutdownStarted)
      ensures started == old(started) && stopped == old(stopped) && stopFailures == old(stopFailures)
    {
      var ups, downs := startupServices, shutdownServices;
      for i := 0 to |services|
        invariant ups == old(startupServices) + services[..i]
        invariant downs == Reverse(services[..i]) + old(shutdownServices)
        modifies {}
      {
        ReversePrefix(services, i);
        assert services[..i + 1] == services[..i] + [services[i]];
        Associative(old(startupServices), services[..i], [services[i]]);
        Associative([services[i]], Reverse(services[..i]), old(shutdownServices));
        ups := ups + [services[i]];
        downs := [services[i]] + downs;
      }
      assert services[..|services|] == services;
      ReverseAppend(old(startupServices), services);
      startupServices, shutdownServices := ups, downs;
    }

    /**
     * `startup`: on its first call, the start hooks in registration order,
     * skipping services without one. A start that throws stops the run and
     * leaves startup incomplete; `threw` reports that rejection.
     */
    method Startup() returns (threw: bool)
      requires Valid()
      modifies this
      ensures Valid()
      ensures old(startupStarted) ==> !threw && unchanged(this)
      ensures !old(startupStarted) ==>
        startupStarted &&
        started == old(started) + Names(startupServices[..FirstThrow(startupServices, Starting)], Starting, Called) &&
        (startupCompleted <==> FirstThrow(startupServices, Starting) == |startupServices|) &&
        (threw <==> FirstThrow(startupServices, Starting) < |startupServices|)
      ensures startupServices == old(startupServices) && shutdownServices == old(shutdownServices)
      ensures shutdownStarted == old(shutdownStarted) && stopped == old(stopped) && stopFailures == old(stopFailures)
    {
      if startupStarted {
        return false;
      }
      startupStarted := true;
      var ss := startupServices;
      for i := 0 to |ss|
        invariant forall j :: 0 <= j < i ==> HookOf(ss[j], Starting) != Throws
        invariant started == old(started) + Names(ss[..i], Starting, Called)
        invariant startupStarted && startupCompleted == old(startupCompleted)
        invariant startupServices == ss && shutdownServices == old(shutdownServices)
        invariant shutdownStarted == old(shutdownStarted) && stopped == old(stopped) && stopFailures == old(stopFailures)
      {
        assert ss[..i + 1][..i] == ss[..i];
        if ss[i].start == Absent {
          continue;
        }
        if ss[i].start == Throws {
          assert FirstThrow(ss, Starting) == i;
          return true;
        }
        started := started + [ss[i].name];
      }
      assert ss[..|ss|] == ss;
      startupCompleted := true;
      threw := false;
    }

    /**
     * `shutdown`: on its first call, mark shutdown as started, then call
     * every stop hook in stop order; a stop that throws is recorded and the
     * run goes on.
     */
    method Shutdown()
      requires Valid()
      modifies this
      ensures Valid()
      ensures old(shutdownStarted) ==> unchanged(this)
      ensures shutdownStarted && !IsAlive() && !IsReady()
      ensures !old(shutdownStarted) ==>
        stopped == old(stopped) + Names(shutdownServices, Stopping, Called) &&
        stopFailures == old(stopFailures) + Names(shutdownServices, Stopping, Failed)
      ensures startupServices == old(startupServices) && shutdownServices == old(shutdownServices)
      ensures startupStarted == old(startupStarted) && startupCompleted == old(startupCompleted)
      ensures started == old(started)
    {
      if shutdownStarted {
        return;
      }
      shutdownStarted := true;
      var ss := shutdownServices;
      for i := 0 to |ss|
        invariant shutdownStarted
        invariant stopped == old(stopped) + Names(ss[..i], Stopping, Called)
        invariant stopFailures == old(stopFailures) + Names(ss[..i], Stopping, Failed)
        invariant startupServices == old(startupServices) && shutdownServices == ss
        invariant startupStarted == old(startupStarted) && startupCompleted == old(startupCompleted)
        invariant started == old(started)
      {
        assert ss[..i + 1][..i] == ss[..i];
        if ss[i].stop == Absent {
          continue;
        }
        stopped := stopped + [ss[i].name];
        if ss[i].stop == Throws {
          stopFailures := stopFailures + [ss[i].name];
        }
      }
      assert ss[..|ss|] == ss;
    }

    /** `areAllServicesHealthy`: the checks in registration order, false at the first unhealthy one. */
    method AreAllServicesHealthy() returns (healthy: bool)
      ensures healthy <==> AllHealthy(startupServices)
    {
      for i := 0 to |startupServices|
        invariant forall j :: 0 <= j < i ==> startupServices[j].check != Some(false)
      {
        if startupServices[i].check.Some? && !startupServices[i].check.value {
          return false;
        }
      }
      healthy := true;
    }
  }

  /**
   * Stop order is the reverse of registration order: the stop hooks a
   * shutdown calls are the registry's stop hooks read from last to first.
   */
  lemma StopOrderIsReverse(startupServices: seq<Service>, shutdownServices: seq<Service>, w: Which)
    requires shutdownServices == Reverse(startupServices)
    ensures Names(shutdownServices, Stopping, w) == Reverse(Names(startupServices, Stopping, w))
  {
    NamesReverse(startupServices, Stopping, w);
  }

  /** Across two `register` calls the later services are stopped first. */
  lemma LaterRegistrationsStopFirst(first: seq<Service>, second: seq<Service>)
    ensures Names(Reverse(first + second), Stopping, Called) ==
      Reverse(Names(second, Stopping, Called)) + Reverse(Names(first, Stopping, Called))
  {
    ReverseAppend(first, second);
    NamesAppend(Reverse(second), Reverse(first), Stopping, Called);
    NamesReverse(first, Stopping, Called);
    NamesReverse(second, Stopping, Called);
  }

  /** A registry without throwing start hooks starts completely, calling every start hook in order. */
  lemma StartupWithoutThrowsCompletes(ss: seq<Service>)
    requires forall i :: 0 <= i < |ss| ==> ss[i].start != Throws
    ensures FirstThrow(ss, Starting) == |ss|
    ensures ss[..FirstThrow(ss, Starting)] == ss
  {
  }

  /** Readiness implies liveness. */
  lemma ReadyImpliesAlive(h: LifecycleHandler)
    ensures h.IsReady() ==> h.IsAlive()
  {
  }
}
