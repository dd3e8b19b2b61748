/** The microVM provider over any number of daemon lives: what its run directories must
    hold for a restart to be safe (providers/compute/microvm/microvm.go). */
module Lives {
  import opened Common
  import opened Addresses
  import opened MicroVM

  /** A life's operation, or a restart that can rebuild some rootfs and sees some taps. */
  datatype Move = Run(op: Op) | Restart(rebuilt: set<Ref>, taps: set<int>)

  ghost function Step(c: NetConfig, s: State, m: Move): State {
    match m
    case Run(op) => MicroVM.Step(c, s, op)
    case Restart(rebuilt, taps) => Restarted(s.disk, rebuilt, taps)
  }

  ghost function At(c: NetConfig, s: State, ms: seq<Move>, n: nat): State
    requires n <= |ms|
  {
    if n == 0 then s else Step(c, At(c, s, ms, n - 1), ms[n - 1])
  }

  const EMPTY := State(map[], {}, map[])

  /** A reattachable record is that of a box in the map, and the record of a box in the map has its
      address and image. */
  predicate TrackedRef(s: State, r: Ref) {
    && (Reattachable(s.disk, r) ==> r in s.vms)
    && (r in s.vms && r in s.disk && s.disk[r].record.Some? ==>
          && s.disk[r].record.value.ip == s.vms[r].ip && s.disk[r].record.value.tap == s.vms[r].tap
          && s.disk[r].record.value.image == s.vms[r].image)
  }

  ghost predicate Tracked(s: State) {
    forall r :: TrackedRef(s, r)
  }

  ghost predicate Kept(c: NetConfig, s: State) {
    Safe(c, s) && Tracked(s)
  }

  /** The move forgets a box whose record a later restart would bring back: a Destroy that could not remove
      the run directory, or a restart that skips a record it cannot rebuild. */
  ghost predicate Strays(s: State, m: Move) {
    match m
    case Run(Destroy(ref, removed)) => ref in s.vms && CanDestroy(s, ref) && !removed && Reattachable(s.disk, ref)
    case Run(_) => false
    case Restart(rebuilt, _) => exists r :: Reattachable(s.disk, r) && r !in rebuilt
  }

  lemma TrackedRecordsAreGood(c: NetConfig, s: State)
    requires Kept(c, s)
    ensures GoodRecords(c, s.disk)
  {
    hide LastOctet, Ip, TapName;
    forall r | Reattachable(s.disk, r)
      ensures exists o: nat :: InRange(o) && s.disk[r].record.value.ip == Ip(c, o)
                && s.disk[r].record.value.tap == TapName(c, Ip(c, o))
    {
      assert TrackedRef(s, r) && Addressed(c, s.vms[r], s.used);
    }
    forall r, q | Reattachable(s.disk, r) && Reattachable(s.disk, q) && r != q
      ensures s.disk[r].record.value.ip != s.disk[q].record.value.ip
    {
      assert TrackedRef(s, r) && TrackedRef(s, q);
    }
  }

  lemma RunKeepsTrack(c: NetConfig, s: State, op: Op)
    requires Tracked(s)
    ensures Tracked(MicroVM.Step(c, s, op)) <==> !Strays(s, Run(op))
  {
    var s' := MicroVM.Step(c, s, op);
    hide LastOctet, NewVm, Alloc;
    if Strays(s, Run(op)) {
      assert Reattachable(s'.disk, op.ref) && !TrackedRef(s', op.ref);
    } else {
      forall r ensures TrackedRef(s', r) {
        assert TrackedRef(s, r);
      }
    }
  }

  lemma RestartKeepsTrack(s: State, rebuilt: set<Ref>, taps: set<int>)
    ensures Tracked(Restarted(s.disk, rebuilt, taps)) <==> !Strays(s, Restart(rebuilt, taps))
  {
    var s' := Restarted(s.disk, rebuilt, taps);
    hide Readable;
    assert forall r :: TrackedRef(s', r) <==> (Reattachable(s.disk, r) ==> r in rebuilt);
  }

  /** One move keeps safety and the records in step exactly when it strands no record. */
  lemma KeptIff(c: NetConfig, s: State, m: Move)
    requires WellFormedSubnet(c) && Kept(c, s)
    ensures Kept(c, Step(c, s, m)) <==> !Strays(s, m)
  {
    hide Safe, Tracked, WellFormedSubnet, MicroVM.Step, Restarted, Strays;
    match m {
      case Run(op) =>
        StepSafe(c, s, op);
        RunKeepsTrack(c, s, op);
      case Restart(rebuilt, taps) =>
        TrackedRecordsAreGood(c, s);
        RestartSafe(c, s.disk, rebuilt, taps);
        RestartKeepsTrack(s, rebuilt, taps);
    }
  }

  ghost predicate KeptAt(c: NetConfig, s: State, ms: seq<Move>, n: nat)
    requires n <= |ms|
  {
    Kept(c, At(c, s, ms, n))
  }

  ghost predicate StraysAt(c: NetConfig, s: State, ms: seq<Move>, n: nat)
    requires n < |ms|
  {
    Strays(At(c, s, ms, n), ms[n])
  }

  ghost predicate NoStray(c: NetConfig, s: State, ms: seq<Move>, n: nat)
    requires n <= |ms|
  {
    forall k :: 0 <= k < n ==> !StraysAt(c, s, ms, k)
  }

  /** Over any number of lives the records stay in step in every state if and only if no move strands a record. */
  lemma {:induction false} LivesKeptIff(c: NetConfig, s: State, ms: seq<Move>, n: nat)
    requires n <= |ms| && WellFormedSubnet(c) && Kept(c, s)
    ensures (forall k :: 0 <= k <= n ==> KeptAt(c, s, ms, k)) <==> NoStray(c, s, ms, n)
  {
    hide Kept, Step, Strays, WellFormedSubnet;
    if n == 0 {
      assert KeptAt(c, s, ms, 0);
    } else {
      LivesKeptIff(c, s, ms, n - 1);
      assert KeptAt(c, s, ms, n - 1) <==> Kept(c, At(c, s, ms, n - 1));
      assert StraysAt(c, s, ms, n - 1) <==> Strays(At(c, s, ms, n - 1), ms[n - 1]);
      assert KeptAt(c, s, ms, n) <==> Kept(c, Step(c, At(c, s, ms, n - 1), ms[n - 1]));
      if Kept(c, At(c, s, ms, n - 1)) {
        KeptIff(c, At(c, s, ms, n - 1), ms[n - 1]);
      }
      assert NoStray(c, s, ms, n) <==> NoStray(c, s, ms, n - 1) && !StraysAt(c, s, ms, n - 1);
    }
  }

  /** Address safety over any number of lives of a fleet that starts empty: while every Destroy removes its run
      directory and every restart rebuilds every record, distinct boxes have distinct addresses and taps. */
  lemma AddressSafetyOverLives(c: NetConfig, ms: seq<Move>, n: nat)
    requires n <= |ms| && WellFormedSubnet(c) && NoStray(c, EMPTY, ms, n)
    ensures Apart(c, At(c, EMPTY, ms, n))
  {
    EmptyKept(c);
    LivesKeptIff(c, EMPTY, ms, n);
    assert KeptAt(c, EMPTY, ms, n);
    hide At, Safe;
    SafeIsApart(c, At(c, EMPTY, ms, n));
  }

  lemma EmptyKept(c: NetConfig)
    ensures Kept(c, EMPTY)
  {
  }

  // ---- what a stray record does ----

  lemma FirstAlloc()
    ensures Alloc({}) == Some(FIRST_OCTET)
  {
    assert LeastFree({}, FIRST_OCTET);
    AllocFailsIffFull({});
  }

  /** A box built twice in one life: its first octet is used and no box's. */
  lemma SecondProvisionLeaks(c: NetConfig)
    requires WellFormedSubnet(c)
    ensures var ops := [Provision("a", "image", Boots), Provision("a", "image", Boots)];
            LeaksAt(c, EMPTY, ops, 1) && !Conserved(c, EMPTY, ops, 2)
  {
    var ops := [Provision("a", "image", Boots), Provision("a", "image", Boots)];
    FirstAlloc();
    assert MicroVM.At(c, EMPTY, ops, 0) == EMPTY && StillReserved(c, EMPTY, ops, 0) == {};
    assert MicroVM.At(c, EMPTY, ops, 1) == Provisioned(c, EMPTY, "a", "image", Boots);
    hide Alloc, Ip, TapName, LastOctet, Live;
    assert FIRST_OCTET + 1 !in MicroVM.At(c, EMPTY, ops, 1).used && InRange(FIRST_OCTET + 1);
    assert LeaksAt(c, EMPTY, ops, 1);
    EmptyKept(c);
    ConservedIff(c, EMPTY, ops, 2);
    ConservedIff(c, EMPTY, ops, 1);
    assert !LeaksAt(c, EMPTY, ops, 0);
    assert NoLeak(c, EMPTY, ops, 1) && !NoLeak(c, EMPTY, ops, 2);
  }

  /** A box provisioned on a free /24 and suspended: it gets .2 and leaves a reattachable record of it. */
  lemma ProvisionAndSuspend(c: NetConfig, s: State, ref: Ref)
    requires WellFormedSubnet(c) && s.used == {} && ref !in s.disk
    ensures var v := NewVm(c, "image", FIRST_OCTET).(suspended := true);
            Suspended(Provisioned(c, s, ref, "image", Boots), ref, true, false)
            == State(s.vms[ref := v], {FIRST_OCTET}, s.disk[ref := Dir(Some(RecordOf(v)), true)])
  {
    FirstAlloc();
    hide Alloc, Ip, TapName;
  }

  function TwoBoxes(between: Move): seq<Move> {
    [Run(Provision("a", "image", Boots)), Run(Suspend("a", true, false)), between,
     Run(Provision("b", "image", Boots)), Run(Suspend("b", true, false)), Restart({"a", "b"}, {})]
  }

  /** Both boxes are back after the restart, on one address and one tap. */
  ghost predicate Clash(s: State) {
    "a" in s.vms && "b" in s.vms && s.vms["a"].ip == s.vms["b"].ip && s.vms["a"].tap == s.vms["b"].tap
  }

  lemma AtNext(c: NetConfig, s: State, ms: seq<Move>, n: nat)
    requires n < |ms|
    ensures At(c, s, ms, n + 1) == Step(c, At(c, s, ms, n), ms[n])
  {
  }

  lemma ClashFrom(c: NetConfig, between: Move)
    requires WellFormedSubnet(c)
    requires var v := NewVm(c, "image", FIRST_OCTET).(suspended := true);
             var s := State(map["a" := v], {FIRST_OCTET}, map["a" := Dir(Some(RecordOf(v)), true)]);
             Step(c, s, between) == State(map[], {}, s.disk)
    ensures Clash(At(c, EMPTY, TwoBoxes(between), 6))
  {
    hide Provisioned, Suspended, NewVm, WellFormedSubnet, Readable;
    var ms := TwoBoxes(between);
    var v := NewVm(c, "image", FIRST_OCTET).(suspended := true);
    var dir := Dir(Some(RecordOf(v)), true);
    ProvisionAndSuspend(c, EMPTY, "a");
    ProvisionAndSuspend(c, State(map[], {}, map["a" := dir]), "b");
    TwoSteps(c, EMPTY, ms, 0);
    AtNext(c, EMPTY, ms, 2);
    TwoSteps(c, EMPTY, ms, 3);
    AtNext(c, EMPTY, ms, 5);
    hide At;
    var s5 := At(c, EMPTY, ms, 5);
    assert Reattaches(s5.disk, {"a", "b"}, "a") && Reattaches(s5.disk, {"a", "b"}, "b");
  }

  lemma TwoSteps(c: NetConfig, s: State, ms: seq<Move>, n: nat)
    requires n + 1 < |ms|
    ensures At(c, s, ms, n + 2) == Step(c, Step(c, At(c, s, ms, n), ms[n]), ms[n + 1])
    ensures At(c, s, ms, 0) == s
  {
    hide Step;
  }

  /** A Destroy that fails to remove the run directory: two boxes share an address after the next restart. */
  lemma LeakedDirectoryClashes(c: NetConfig)
    requires WellFormedSubnet(c)
    ensures Clash(At(c, EMPTY, TwoBoxes(Run(Destroy("a", false))), 6))
  {
    LastOctetOfIp(c, FIRST_OCTET);
    hide LastOctet, Ip, TapName;
    ClashFrom(c, Run(Destroy("a", false)));
  }

  /** A restart that cannot rebuild a record, as when its image is away: the same. */
  lemma SkippedRecordClashes(c: NetConfig)
    requires WellFormedSubnet(c)
    ensures Clash(At(c, EMPTY, TwoBoxes(Restart({}, {})), 6))
  {
    hide LastOctet, Ip, TapName;
    ClashFrom(c, Restart({}, {}));
  }
}
