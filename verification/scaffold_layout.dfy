/**
 * The scaffold layout's "fluid" override: pages inside the scaffold ask
 * for a full-width layout while mounted. The provider counts open
 * requests; the layout is fluid while any request is open.
 */
module ScaffoldLayout {
  import opened Wrappers

  /** A counter operation: a request or a release. */
  datatype Op = Request | Release

  /** One operation applied to the count; a release never goes below 0. */
  function Step(count: nat, op: Op): nat {
    match op
    case Request => count + 1
    case Release => if count > 0 then count - 1 else 0
  }

  /** The operations applied in order. */
  function Run(count: nat, ops: seq<Op>): nat
    decreases |ops|
  {
    if ops == [] then count else Run(Step(count, ops[0]), ops[1..])
  }

  function Occurrences(ops: seq<Op>, op: Op): nat {
    if ops == [] then 0 else (if ops[0] == op then 1 else 0) + Occurrences(ops[1..], op)
  }

  /** No prefix releases more than the count plus the requests made so far,
      so no release hits the floor. */
  predicate Covered(count: nat, ops: seq<Op>) {
    forall k :: 0 <= k <= |ops| ==>
      Occurrences(ops[..k], Release) <= count + Occurrences(ops[..k], Request)
  }

  lemma {:induction false} OccurrencesAppend(a: seq<Op>, b: seq<Op>, op: Op)
    ensures Occurrences(a + b, op) == Occurrences(a, op) + Occurrences(b, op)
  {
    if a != [] {
      assert (a + b)[1..] == a[1..] + b;
      OccurrencesAppend(a[1..], b, op);
    } else {
      assert a + b == b;
    }
  }

  /** While releases never outrun the requests, the count is the starting
      count plus the requests minus the releases. */
  lemma {:induction false} RunCounts(count: nat, ops: seq<Op>)
    requires Covered(count, ops)
    ensures Run(count, ops) == count + Occurrences(ops, Request) - Occurrences(ops, Release)
    decreases |ops|
  {
    if ops != [] {
      var next := Step(count, ops[0]);
      assert Occurrences(ops[..1], Release) <= count + Occurrences(ops[..1], Request) by {
        assert ops[..1] == [ops[0]];
        assert ops[..1][1..] == [];
      }
      assert ops[..1] == [ops[0]] && ops[..1][1..] == [];
      var rest := ops[1..];
      forall k | 0 <= k <= |rest|
        ensures Occurrences(rest[..k], Release) <= next + Occurrences(rest[..k], Request)
      {
        assert ops[..k + 1] == [ops[0]] + rest[..k];
        OccurrencesAppend([ops[0]], rest[..k], Release);
        OccurrencesAppend([ops[0]], rest[..k], Request);
        assert [ops[0]][1..] == [];
      }
      RunCounts(next, rest);
      assert ops == [ops[0]] + rest;
      OccurrencesAppend([ops[0]], rest, Release);
      OccurrencesAppend([ops[0]], rest, Request);
      assert [ops[0]][1..] == [];
    }
  }

  function Repeat(op: Op, n: nat): (r: seq<Op>)
    ensures |r| == n
    ensures forall i :: 0 <= i < n ==> r[i] == op
  {
    if n == 0 then [] else [op] + Repeat(op, n - 1)
  }

  /** `n` requests followed by `n` releases restore the count. */
  lemma {:induction false} MountsThenUnmounts(count: nat, n: nat)
    ensures Run(count, Repeat(Request, n) + Repeat(Release, n)) == count
  {
    RunAppend(count, Repeat(Request, n), Repeat(Release, n));
    RequestsAdd(count, n);
    ReleasesSubtract(count + n, n);
  }

  lemma {:induction false} RunAppend(count: nat, a: seq<Op>, b: seq<Op>)
    ensures Run(count, a + b) == Run(Run(count, a), b)
    decreases |a|
  {
    if a != [] {
      assert (a + b)[1..] == a[1..] + b;
      RunAppend(Step(count, a[0]), a[1..], b);
    } else {
      assert a + b == b;
    }
  }

  lemma {:induction false} RequestsAdd(count: nat, n: nat)
    ensures Run(count, Repeat(Request, n)) == count + n
    decreases n
  {
    if n > 0 {
      RequestsAdd(count + 1, n - 1);
    }
  }

  lemma {:induction false} ReleasesSubtract(count: nat, n: nat)
    ensures Run(count, Repeat(Release, n)) == if count >= n then count - n else 0
    decreases n
  {
    if n > 0 {
      ReleasesSubtract(Step(count, Release), n - 1);
    }
  }

  /** The context `useScaffoldLayoutProvider` provides. */
  class FluidProvider {
    var overrideCount: nat

    constructor()
      ensures overrideCount == 0 && !FluidOverride()
    {
      overrideCount := 0;
    }

    /** `fluidOverride`: the layout is fluid while any request is open. */
    predicate FluidOverride()
      reads this
    {
      overrideCount > 0
    }

    /** `requestFluid`. */
    method RequestFluid()
      modifies this
      ensures overrideCount == Step(old(overrideCount), Request)
      ensures FluidOverride()
    {
      overrideCount := overrideCount + 1;
    }

    /** `releaseFluid`: one less, but never below 0. */
    method ReleaseFluid()
      modifies this
      ensures overrideCount == Step(old(overrideCount), Release)
      ensures old(overrideCount) <= 1 ==> !FluidOverride()
    {
      overrideCount := if overrideCount - 1 > 0 then overrideCount - 1 else 0;
    }
  }

  /** Whether `useScaffoldLayoutConsumer` takes part: a provider is
      present and the page did not pass `fluid: false` (`None` is an
      absent option). */
  predicate Participates(provider: Option<FluidProvider>, fluid: Option<bool>) {
    provider.Some? && fluid != Some(false)
  }

  /** `useScaffoldLayoutConsumer` at setup: one request when it takes part,
      nothing otherwise. The result says whether it registered the release
      for unmounting. */
  method ConsumerSetup(provider: Option<FluidProvider>, fluid: Option<bool>) returns (registered: bool)
    modifies if provider.Some? then {provider.value} else {}
    ensures registered <==> Participates(provider, fluid)
    ensures registered ==> provider.value.overrideCount == old(provider.value.overrideCount) + 1
    ensures provider.Some? && !registered ==> provider.value.overrideCount == old(provider.value.overrideCount)
  {
    if provider.None? || fluid == Some(false) {
      return false;
    }
    provider.value.RequestFluid();
    return true;
  }

  /** The unmount hook a participating consumer registered. */
  method ConsumerUnmount(provider: Option<FluidProvider>, registered: bool)
    requires registered ==> provider.Some?
    modifies if provider.Some? then {provider.value} else {}
    ensures registered ==> provider.value.overrideCount == Step(old(provider.value.overrideCount), Release)
    ensures provider.Some? && !registered ==> provider.value.overrideCount == old(provider.value.overrideCount)
  {
    if registered {
      provider.value.ReleaseFluid();
    }
  }
}
