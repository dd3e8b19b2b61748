/** The microVM provider (providers/compute/microvm/microvm.go): live VMs, the /24
    they share, and the on-disk records a restarted daemon reattaches from. How far
    the host calls of an operation get is an argument. */
module MicroVM {
  import opened Common
  import opened Addresses

  type Ref = string

  datatype Vm = Vm(image: string, ip: string, tap: string, suspended: bool, handle: bool, exited: bool)

  /** vm.json */
  datatype Record = Record(image: string, ip: string, tap: string, suspended: bool)

  /** A box's run directory: its record, and whether a snapshot file is there. */
  datatype Dir = Dir(record: Option<Record>, snapshot: bool)

  datatype State = State(vms: map<Ref, Vm>, used: set<int>, disk: map<Ref, Dir>)

  /** Where a Provision stops. */
  datatype Boot = NoDir | NoRootfs | NoTap | NoBoot | Boots

  datatype Op =
    | Provision(ref: Ref, image: string, boot: Boot)
    | Suspend(ref: Ref, ok: bool, left: bool)   // left: a failed snapshot call leaves its state file behind
    | Resume(ref: Ref, ok: bool)
    | Destroy(ref: Ref, removed: bool)
    | Exit(ref: Ref)

  function RecordOf(v: Vm): Record {
    Record(v.image, v.ip, v.tap, v.suspended)
  }

  function Persisted(disk: map<Ref, Dir>, ref: Ref, v: Vm, snapshot: bool): map<Ref, Dir> {
    disk[ref := Dir(Some(RecordOf(v)), snapshot)]
  }

  function HasSnapshot(disk: map<Ref, Dir>, ref: Ref): bool {
    ref in disk && disk[ref].snapshot
  }

  ghost function Alloc(used: set<int>): (r: Option<int>)
    ensures r.Some? ==> LeastFree(used, r.value)
    ensures r.None? ==> forall o :: !LeastFree(used, o)
  {
    if o :| LeastFree(used, o) then Some(o) else None
  }

  lemma {:induction false} LeastFreeExists(used: set<int>, from: int)
    requires FIRST_OCTET <= from <= LAST_OCTET + 1 && forall p :: FIRST_OCTET <= p < from ==> p in used
    ensures Full(used) || exists o :: LeastFree(used, o)
    decreases LAST_OCTET - from
  {
    if from <= LAST_OCTET {
      if from in used {
        LeastFreeExists(used, from + 1);
      } else {
        assert LeastFree(used, from);
      }
    }
  }

  /** allocIP fails only on a full /24. */
  lemma AllocFailsIffFull(used: set<int>)
    ensures Alloc(used).None? <==> Full(used)
  {
    LeastFreeExists(used, FIRST_OCTET);
  }

  function NewVm(c: NetConfig, image: string, octet: nat): Vm {
    Vm(image, Ip(c, octet), TapName(c, Ip(c, octet)), false, true, false)
  }

  /** Provision: any failure sweeps the run dir; an allocated address is given back. */
  ghost function Provisioned(c: NetConfig, s: State, ref: Ref, image: string, boot: Boot): State {
    var swept := s.(disk := s.disk - {ref});
    if boot == NoDir then s
    else if boot == NoRootfs then swept
    else match Alloc(s.used)
      case None => swept
      case Some(o) =>
        if boot != Boots then swept
        else
          var v := NewVm(c, image, o);
          State(s.vms[ref := v], s.used + {o}, Persisted(s.disk, ref, v, HasSnapshot(s.disk, ref)))
  }

  /** A snapshot file in the run directory, if that is there. */
  function WithSnapshot(disk: map<Ref, Dir>, ref: Ref): map<Ref, Dir> {
    if ref in disk then disk[ref := disk[ref].(snapshot := true)] else disk
  }

  /** A failed snapshot call may leave its state file; nobody removes it. */
  function Suspended(s: State, ref: Ref, ok: bool, left: bool): State {
    if ref !in s.vms || s.vms[ref].suspended then s
    else if !ok then (if left then s.(disk := WithSnapshot(s.disk, ref)) else s)
    else
      var v := s.vms[ref].(suspended := true);
      s.(vms := s.vms[ref := v], disk := Persisted(s.disk, ref, v, true))
  }

  predicate SuspendOk(s: State, ref: Ref, ok: bool) {
    ref in s.vms && (s.vms[ref].suspended || ok)
  }

  function Resumed(s: State, ref: Ref, ok: bool): State {
    if ref !in s.vms || !s.vms[ref].suspended || !ok then s
    else
      var v := s.vms[ref].(suspended := false, handle := true, exited := false);
      s.(vms := s.vms[ref := v], disk := Persisted(s.disk, ref, v, HasSnapshot(s.disk, ref)))
  }

  predicate ResumeOk(s: State, ref: Ref, ok: bool) {
    ref in s.vms && (!s.vms[ref].suspended || ok)
  }

  /** Destroy needs the process handle of a VM it knows. */
  predicate CanDestroy(s: State, ref: Ref) {
    ref in s.vms ==> s.vms[ref].handle
  }

  function Freed(used: set<int>, ip: string): set<int> {
    if LastOctet(ip) >= 0 then used - {LastOctet(ip)} else used
  }

  function Destroyed(s: State, ref: Ref, removed: bool): State {
    if ref !in s.vms || !CanDestroy(s, ref) then s
    else State(s.vms - {ref}, Freed(s.used, s.vms[ref].ip),
               if removed then s.disk - {ref} else s.disk)
  }

  ghost function Step(c: NetConfig, s: State, op: Op): State {
    match op
    case Provision(ref, image, boot) => Provisioned(c, s, ref, image, boot)
    case Suspend(ref, ok, left) => Suspended(s, ref, ok, left)
    case Resume(ref, ok) => Resumed(s, ref, ok)
    case Destroy(ref, removed) => Destroyed(s, ref, removed)
    case Exit(ref) => if ref in s.vms then s.(vms := s.vms[ref := s.vms[ref].(exited := true)]) else s
  }

  ghost function At(c: NetConfig, s: State, ops: seq<Op>, n: nat): State
    requires n <= |ops|
  {
    if n == 0 then s else Step(c, At(c, s, ops, n - 1), ops[n - 1])
  }

  /** The box a Provision builds: the image asked for, on the least free address, running under a handle, recorded;
      nothing else in the map or on disk changes. */
  lemma BuiltVm(c: NetConfig, s: State, ref: Ref, image: string)
    requires exists o :: 2 <= o <= 254 && o !in s.used
    ensures var s' := Step(c, s, Provision(ref, image, Boots));
            && ref in s'.vms && ref in s'.disk
            && var v := s'.vms[ref];
            && v.image == image && !v.suspended && v.handle && !v.exited
            && (exists o: nat ::
                  2 <= o <= 254 && o !in s.used && (forall p :: 2 <= p < o ==> p in s.used) && s'.used == s.used + {o}
                  && v.ip == c.subnet24 + "." + Decimal(o))
            && s'.disk[ref].record == Some(Record(image, v.ip, v.tap, false))
            && (s'.disk[ref].snapshot <==> ref in s.disk && s.disk[ref].snapshot)
            && (forall r :: r != ref ==> (r in s'.vms <==> r in s.vms) && (r in s'.disk <==> r in s.disk))
            && (forall r :: r != ref && r in s.vms ==> s'.vms[r] == s.vms[r])
            && (forall r :: r != ref && r in s.disk ==> s'.disk[r] == s.disk[r])
  {
    AllocFailsIffFull(s.used);
    hide Decimal;
  }

  /** A Provision that does not boot builds nothing: unless it could not even make the run directory, that is gone. */
  lemma UnbuiltVm(c: NetConfig, s: State, ref: Ref, image: string, boot: Boot)
    requires boot != Boots || forall o :: 2 <= o <= 254 ==> o in s.used
    ensures var s' := Step(c, s, Provision(ref, image, boot));
            && s'.vms == s.vms && s'.used == s.used
            && s'.disk == if boot == NoDir then s.disk else s.disk - {ref}
  {
    AllocFailsIffFull(s.used);
  }

  /** A Suspend of a running box that succeeds marks it and records it beside its snapshot; one that fails changes at
      most the snapshot file. */
  lemma SuspendedVm(c: NetConfig, s: State, ref: Ref, ok: bool, left: bool)
    ensures var s' := Step(c, s, Suspend(ref, ok, left));
            && s'.used == s.used
            && (ref in s.vms && !s.vms[ref].suspended && ok ==>
                  var v := s.vms[ref].(suspended := true);
                  && s'.vms == s.vms[ref := v]
                  && s'.disk == s.disk[ref := Dir(Some(Record(v.image, v.ip, v.tap, true)), true)])
            && (ref !in s.vms || s.vms[ref].suspended || !ok ==> s'.vms == s.vms)
            && (ref !in s.vms || s.vms[ref].suspended || (!ok && (!left || ref !in s.disk)) ==> s'.disk == s.disk)
            && (ref in s.vms && !s.vms[ref].suspended && !ok && left && ref in s.disk ==>
                  s'.disk == s.disk[ref := Dir(s.disk[ref].record, true)])
    ensures SuspendOk(s, ref, ok) <==> ref in s.vms && (s.vms[ref].suspended || ok)
  {
  }

  /** A Resume of a suspended box that succeeds gives it a process again and records it; its snapshot file stays. */
  lemma ResumedVm(c: NetConfig, s: State, ref: Ref, ok: bool)
    ensures var s' := Step(c, s, Resume(ref, ok));
            && s'.used == s.used
            && (ref in s.vms && s.vms[ref].suspended && ok ==>
                  var v := s.vms[ref].(suspended := false, handle := true, exited := false);
                  && s'.vms == s.vms[ref := v]
                  && s'.disk == s.disk[ref :=
                       Dir(Some(Record(v.image, v.ip, v.tap, false)), ref in s.disk && s.disk[ref].snapshot)])
            && (ref !in s.vms || !s.vms[ref].suspended || !ok ==> s' == s)
    ensures ResumeOk(s, ref, ok) <==> ref in s.vms && (!s.vms[ref].suspended || ok)
  {
  }

  /** A Destroy forgets the box and frees its octet; its run directory goes when it can be removed. */
  lemma DestroyedVm(c: NetConfig, s: State, ref: Ref, removed: bool)
    requires Safe(c, s) && (ref in s.vms ==> s.vms[ref].handle)
    ensures var s' := Step(c, s, Destroy(ref, removed));
            && s'.vms == s.vms - {ref}
            && s'.used == (if ref in s.vms then s.used - {LastOctet(s.vms[ref].ip)} else s.used)
            && s'.disk == if ref in s.vms && removed then s.disk - {ref} else s.disk
  {
    if ref in s.vms {
      assert Addressed(c, s.vms[ref], s.used);
    }
    hide LastOctet;
    assert ref !in s.vms ==> s.vms - {ref} == s.vms;
  }

  // ---- reattach ----

  /** The run directory holds a record and a snapshot: a restart that can rebuild its rootfs brings it back. */
  predicate Reattachable(disk: map<Ref, Dir>, ref: Ref) {
    ref in disk && disk[ref].record.Some? && disk[ref].snapshot
  }

  predicate Reattaches(disk: map<Ref, Dir>, rebuilt: set<Ref>, ref: Ref) {
    Reattachable(disk, ref) && ref in rebuilt
  }

  function Reattached(d: Dir): Vm
    requires d.record.Some?
  {
    Vm(d.record.value.image, d.record.value.ip, d.record.value.tap, true, false, false)
  }

  /** A fresh daemon: addresses of visible taps and of reattached boxes are taken. */
  function Restarted(disk: map<Ref, Dir>, rebuilt: set<Ref>, taps: set<int>): State {
    var vms := map ref | ref in disk && Reattaches(disk, rebuilt, ref) :: Reattached(disk[ref]);
    State(vms, taps + Readable(vms), disk)
  }

  /** The octets of the VMs whose address can be read. */
  function Readable(vms: map<Ref, Vm>): set<int> {
    set ref | ref in vms && LastOctet(vms[ref].ip) >= 0 :: LastOctet(vms[ref].ip)
  }

  lemma ReadableNone()
    ensures Readable(map[]) == {}
  {
  }

  lemma RestartedIs(disk: map<Ref, Dir>, rebuilt: set<Ref>, taps: set<int>, vms: map<Ref, Vm>)
    requires forall ref :: Reattaches(disk, rebuilt, ref) ==> ref in vms
    requires forall ref :: ref in vms ==> Reattaches(disk, rebuilt, ref) && vms[ref] == Reattached(disk[ref])
    ensures Restarted(disk, rebuilt, taps) == State(vms, taps + Readable(vms), disk)
  {
    hide Readable;
    assert vms == map ref | ref in disk && Reattaches(disk, rebuilt, ref) :: Reattached(disk[ref]);
  }

  lemma ReadableInsert(vms: map<Ref, Vm>, ref: Ref, v: Vm)
    requires ref !in vms
    ensures Readable(vms[ref := v]) == Readable(vms) + if LastOctet(v.ip) >= 0 then {LastOctet(v.ip)} else {}
  {
    hide LastOctet;
    var vms' := vms[ref := v];
    assert forall r :: r in vms ==> r in vms' && vms'[r] == vms[r];
    assert ref in vms' && vms'[ref] == v;
  }

  /** The reattachable records of a fleet: its own addresses, pairwise distinct. */
  ghost predicate GoodRecords(c: NetConfig, disk: map<Ref, Dir>) {
    && (forall r :: Reattachable(disk, r) ==>
          exists o: nat :: InRange(o) && disk[r].record.value.ip == Ip(c, o)
                           && disk[r].record.value.tap == TapName(c, Ip(c, o)))
    && (forall r, q :: Reattachable(disk, r) && Reattachable(disk, q) && r != q ==>
          disk[r].record.value.ip != disk[q].record.value.ip)
  }

  // ---- address safety ----

  /** v holds its own guest address of the fleet. */
  ghost predicate Addressed(c: NetConfig, v: Vm, used: set<int>) {
    var o := LastOctet(v.ip);
    InRange(o) && v.ip == Ip(c, o) && v.tap == TapName(c, Ip(c, o)) && o in used
  }

  ghost predicate Safe(c: NetConfig, s: State) {
    && (forall r :: r in s.vms ==> Addressed(c, s.vms[r], s.used))
    && (forall r, q :: r in s.vms && q in s.vms && r != q ==> LastOctet(s.vms[r].ip) != LastOctet(s.vms[q].ip))
  }

  lemma RecordOctet(c: NetConfig, rec: Record, o: nat)
    requires WellFormedSubnet(c) && InRange(o) && rec.ip == Ip(c, o)
    ensures LastOctet(rec.ip) == o
  {
    LastOctetOfIp(c, o);
  }

  lemma RestartSafe(c: NetConfig, disk: map<Ref, Dir>, rebuilt: set<Ref>, taps: set<int>)
    requires WellFormedSubnet(c) && GoodRecords(c, disk)
    ensures Safe(c, Restarted(disk, rebuilt, taps))
  {
    hide LastOctet, Ip, TapName, WellFormedSubnet;
    var s := Restarted(disk, rebuilt, taps);
    forall r | r in s.vms ensures Addressed(c, s.vms[r], s.used) {
      var rec := disk[r].record.value;
      var o: nat :| InRange(o) && rec.ip == Ip(c, o) && rec.tap == TapName(c, Ip(c, o));
      RecordOctet(c, rec, o);
    }
    forall r, q | r in s.vms && q in s.vms && r != q ensures LastOctet(s.vms[r].ip) != LastOctet(s.vms[q].ip) {
      assert Addressed(c, s.vms[r], s.used) && Addressed(c, s.vms[q], s.used);
    }
  }

  lemma NewVmAddressed(c: NetConfig, image: string, o: nat, used: set<int>)
    requires WellFormedSubnet(c) && InRange(o) && o in used
    ensures Addressed(c, NewVm(c, image, o), used) && LastOctet(NewVm(c, image, o).ip) == o
  {
    LastOctetOfIp(c, o);
  }

  /** Safety only looks at addresses. */
  lemma SameAddressesSafe(c: NetConfig, s: State, s': State)
    requires Safe(c, s) && s'.vms.Keys <= s.vms.Keys
    requires forall r :: r in s'.vms ==> s'.vms[r].ip == s.vms[r].ip && s'.vms[r].tap == s.vms[r].tap
                                         && (LastOctet(s.vms[r].ip) in s.used ==> LastOctet(s.vms[r].ip) in s'.used)
    ensures Safe(c, s')
  {
  }

  lemma ProvisionSafe(c: NetConfig, s: State, ref: Ref, image: string, o: nat)
    requires WellFormedSubnet(c) && Safe(c, s) && LeastFree(s.used, o)
    ensures Safe(c, State(s.vms[ref := NewVm(c, image, o)], s.used + {o}, s.disk))
  {
    NewVmAddressed(c, image, o, s.used + {o});
    hide LastOctet, Ip, TapName, NewVm, WellFormedSubnet, LeastFree;
    assert o !in s.used by { assert LeastFree(s.used, o); }
    var s' := State(s.vms[ref := NewVm(c, image, o)], s.used + {o}, s.disk);
    forall r | r in s'.vms && r != ref ensures Addressed(c, s'.vms[r], s'.used) && LastOctet(s'.vms[r].ip) != o {
      assert Addressed(c, s.vms[r], s.used);
    }
  }

  lemma StepSafe(c: NetConfig, s: State, op: Op)
    requires WellFormedSubnet(c) && Safe(c, s)
    ensures Safe(c, Step(c, s, op))
  {
    hide LastOctet, Ip, TapName, NewVm, WellFormedSubnet, Addressed;
    var s' := Step(c, s, op);
    match op {
      case Provision(ref, image, boot) =>
        if boot == Boots && Alloc(s.used).Some? {
          ProvisionSafe(c, s, ref, image, Alloc(s.used).value);
        } else {
          SameAddressesSafe(c, s, s');
        }
      case _ => SameAddressesSafe(c, s, s');
    }
  }

  lemma {:induction false} AlwaysSafe(c: NetConfig, s: State, ops: seq<Op>, n: nat)
    requires n <= |ops| && WellFormedSubnet(c) && Safe(c, s)
    ensures Safe(c, At(c, s, ops, n))
  {
    hide Safe, Step, WellFormedSubnet;
    if n > 0 {
      AlwaysSafe(c, s, ops, n - 1);
      StepSafe(c, At(c, s, ops, n - 1), ops[n - 1]);
    }
  }

  /** Over any run since a restart from good records, boxes are apart. */
  lemma AddressSafety(c: NetConfig, disk: map<Ref, Dir>, rebuilt: set<Ref>, taps: set<int>, ops: seq<Op>, n: nat)
    requires n <= |ops| && WellFormedSubnet(c) && GoodRecords(c, disk)
    ensures Apart(c, At(c, Restarted(disk, rebuilt, taps), ops, n))
  {
    RestartSafe(c, disk, rebuilt, taps);
    AlwaysSafe(c, Restarted(disk, rebuilt, taps), ops, n);
    SafeIsApart(c, At(c, Restarted(disk, rebuilt, taps), ops, n));
  }

  /** Distinct boxes have distinct addresses and tap devices, in .2 to .254, each marked used, and none has the
      bridge's own address. */
  ghost predicate Apart(c: NetConfig, s: State) {
    && (forall r :: r in s.vms ==>
          exists o: nat ::
            2 <= o <= 254 && o in s.used
            && s.vms[r].ip == c.subnet24 + "." + Decimal(o) && s.vms[r].tap == c.tapPrefix + Decimal(o))
    && (forall r :: r in s.vms ==> s.vms[r].ip != c.subnet24 + ".1")
    && (forall r, q :: r in s.vms && q in s.vms && r != q ==>
          s.vms[r].ip != s.vms[q].ip && s.vms[r].tap != s.vms[q].tap)
  }

  lemma SafeIsApart(c: NetConfig, s: State)
    requires WellFormedSubnet(c) && Safe(c, s)
    ensures Apart(c, s)
  {
    hide LastOctet, WellFormedSubnet, TapName;
    forall r | r in s.vms
      ensures exists o: nat ::
                2 <= o <= 254 && o in s.used
                && s.vms[r].ip == c.subnet24 + "." + Decimal(o) && s.vms[r].tap == c.tapPrefix + Decimal(o)
      ensures s.vms[r].ip != c.subnet24 + ".1"
    {
      var o := LastOctet(s.vms[r].ip);
      assert Addressed(c, s.vms[r], s.used);
      NamesAreInjective(c, o, 1);
    }
    hide Ip;
    forall r, q | r in s.vms && q in s.vms && r != q
      ensures s.vms[r].ip != s.vms[q].ip && s.vms[r].tap != s.vms[q].tap {
      assert Addressed(c, s.vms[r], s.used) && Addressed(c, s.vms[q], s.used);
      NamesAreInjective(c, LastOctet(s.vms[r].ip), LastOctet(s.vms[q].ip));
    }
  }

  /** Suspend and resume move no box and no address. */
  lemma SuspendKeepsAddresses(c: NetConfig, s: State, op: Op, r: Ref)
    requires op.Suspend? || op.Resume?
    ensures var s' := Step(c, s, op);
            && s'.used == s.used && s'.vms.Keys == s.vms.Keys
            && (r in s.vms ==>
                  s'.vms[r].ip == s.vms[r].ip && s'.vms[r].tap == s.vms[r].tap && s'.vms[r].image == s.vms[r].image)
  {
  }

  // ---- conservation ----

  ghost function Live(s: State): set<int> {
    set r | r in s.vms :: LastOctet(s.vms[r].ip)
  }

  /** The octets used at the start that no Destroy has freed since. */
  ghost function StillReserved(c: NetConfig, s: State, ops: seq<Op>, n: nat): set<int>
    requires n <= |ops|
  {
    if n == 0 then s.used
    else ReservedAfter(At(c, s, ops, n - 1), ops[n - 1], StillReserved(c, s, ops, n - 1))
  }

  ghost predicate NeverReprovisions(c: NetConfig, s: State, ops: seq<Op>) {
    forall n :: 0 <= n < |ops| && ops[n].Provision? ==> ops[n].ref !in At(c, s, ops, n).vms
  }

  /** A Provision of a new ref adds the same octet to the used and to the live ones, or none to either. */
  lemma ProvisionLive(c: NetConfig, s: State, op: Op) returns (added: set<int>)
    requires WellFormedSubnet(c) && op.Provision? && op.ref !in s.vms
    ensures Step(c, s, op).used == s.used + added && Live(Step(c, s, op)) == Live(s) + added
  {
    var s' := Step(c, s, op);
    added := {};
    if op.ref in s'.vms {
      var o := Alloc(s.used).value;
      NewVmAddressed(c, op.image, o, s'.used);
      hide LastOctet, NewVm, WellFormedSubnet;
      LiveInsert(s, s', op.ref, o);
      added := {o};
    }
  }

  lemma LiveInsert(s: State, s': State, ref: Ref, o: int)
    requires ref !in s.vms && ref in s'.vms && s'.vms.Keys == s.vms.Keys + {ref}
    requires LastOctet(s'.vms[ref].ip) == o && forall r :: r in s.vms ==> s'.vms[r] == s.vms[r]
    ensures Live(s') == Live(s) + {o}
  {
  }

  lemma DestroyLive(c: NetConfig, s: State, ref: Ref, removed: bool)
    requires Safe(c, s) && ref in s.vms && CanDestroy(s, ref)
    ensures Live(Destroyed(s, ref, removed)) == Live(s) - {LastOctet(s.vms[ref].ip)}
  {
    hide LastOctet, Addressed;
    var s', o := Destroyed(s, ref, removed), LastOctet(s.vms[ref].ip);
    forall x | x in Live(s') ensures x in Live(s) - {o} {
      var r :| r in s'.vms && x == LastOctet(s'.vms[r].ip);
      assert r in s.vms && r != ref;
    }
    forall x | x in Live(s) - {o} ensures x in Live(s') {
      var r :| r in s.vms && x == LastOctet(s.vms[r].ip);
      assert r in s'.vms;
    }
  }

  lemma OtherLive(c: NetConfig, s: State, op: Op)
    requires !op.Provision? && !op.Destroy?
    ensures Step(c, s, op).used == s.used && Live(Step(c, s, op)) == Live(s)
  {
    hide LastOctet;
    var s' := Step(c, s, op);
    assert s'.vms.Keys == s.vms.Keys && forall r :: r in s.vms ==> s'.vms[r].ip == s.vms[r].ip;
  }

  lemma LiveIsUsed(c: NetConfig, s: State)
    requires Safe(c, s)
    ensures Live(s) <= s.used
  {
  }

  /** What an op leaves of the octets reserved before it. */
  ghost function ReservedAfter(s: State, op: Op, reserved: set<int>): set<int> {
    if op.Destroy? && op.ref in s.vms && CanDestroy(s, op.ref) then reserved - {LastOctet(s.vms[op.ref].ip)}
        else reserved
  }

  /** The op loses an octet for the account: it boots a box still in the map, on a /24 that is not full, and the
      octet of the entry it overwrites is not among the reserved ones. */
  ghost predicate Leaks(s: State, op: Op, reserved: set<int>) {
    op.Provision? && op.boot == Boots && op.ref in s.vms && !Full(s.used) && LastOctet(s.vms[op.ref].ip) !in reserved
  }

  /** Overwriting an entry replaces its octet among the live ones. */
  lemma LiveReplace(c: NetConfig, s: State, s': State, ref: Ref, o: int)
    requires Safe(c, s) && ref in s.vms && s'.vms.Keys == s.vms.Keys && LastOctet(s'.vms[ref].ip) == o
    requires forall r :: r in s.vms && r != ref ==> s'.vms[r] == s.vms[r]
    ensures Live(s') == Live(s) - {LastOctet(s.vms[ref].ip)} + {o}
  {
    hide LastOctet, Addressed;
    var lost := LastOctet(s.vms[ref].ip);
    forall x | x in Live(s) - {lost} ensures x in Live(s') {
      var r :| r in s.vms && x == LastOctet(s.vms[r].ip);
      assert s'.vms[r] == s.vms[r];
    }
    forall x | x in Live(s') ensures x in Live(s) - {lost} + {o} {
      var r :| r in s'.vms && x == LastOctet(s'.vms[r].ip);
      assert r in s.vms;
    }
  }

  lemma RebuildConservesIff(c: NetConfig, s: State, op: Op, reserved: set<int>)
    requires WellFormedSubnet(c) && Safe(c, s) && op.Provision? && op.ref in s.vms
    requires s.used == reserved + Live(s)
    ensures Step(c, s, op).used == reserved + Live(Step(c, s, op)) <==> !Leaks(s, op, reserved)
  {
    hide Live, LastOctet, WellFormedSubnet, NewVm, Full, Ip, TapName, Safe, LeastFree, Addressed;
    AllocFailsIffFull(s.used);
    var s' := Step(c, s, op);
    if op.boot == Boots && Alloc(s.used).Some? {
      var o := Alloc(s.used).value;
      FreshOctet(s.used);
      NewVmAddressed(c, op.image, o, s'.used);
      LiveReplace(c, s, s', op.ref, o);
      LiveHas(s, op.ref);
    } else {
      SameLive(s, s');
    }
  }

  lemma SameLive(s: State, s': State)
    requires s'.vms == s.vms
    ensures Live(s') == Live(s)
  {
  }

  lemma FreshOctet(used: set<int>)
    ensures Alloc(used).Some? ==> InRange(Alloc(used).value) && Alloc(used).value !in used
  {
  }

  lemma LiveHas(s: State, ref: Ref)
    requires ref in s.vms
    ensures LastOctet(s.vms[ref].ip) in Live(s)
  {
  }

  /** One op keeps the account exactly when it loses no octet. */
  lemma StepConservesIff(c: NetConfig, s: State, op: Op, reserved: set<int>)
    requires WellFormedSubnet(c) && Safe(c, s) && s.used == reserved + Live(s)
    ensures Step(c, s, op).used == ReservedAfter(s, op, reserved) + Live(Step(c, s, op)) <==> !Leaks(s, op, reserved)
  {
    hide Live, LastOctet, Provisioned, WellFormedSubnet, Full;
    match op {
      case Provision(_, _, _) =>
        if op.ref in s.vms {
          RebuildConservesIff(c, s, op, reserved);
        } else {
          var added := ProvisionLive(c, s, op);
        }
      case Destroy(ref, removed) =>
        if ref in s.vms && CanDestroy(s, ref) {
          DestroyLive(c, s, ref, removed);
          assert Addressed(c, s.vms[ref], s.used);
        }
      case _ => OtherLive(c, s, op);
    }
  }

  /** The used octets are exactly those reserved at the start and not freed since, plus the live ones. */
  ghost predicate Conserved(c: NetConfig, s: State, ops: seq<Op>, n: nat)
    requires n <= |ops|
  {
    At(c, s, ops, n).used == StillReserved(c, s, ops, n) + Live(At(c, s, ops, n))
  }

  ghost predicate LeaksAt(c: NetConfig, s: State, ops: seq<Op>, n: nat)
    requires n < |ops|
  {
    Leaks(At(c, s, ops, n), ops[n], StillReserved(c, s, ops, n))
  }

  ghost predicate NoLeak(c: NetConfig, s: State, ops: seq<Op>, n: nat)
    requires n <= |ops|
  {
    forall k :: 0 <= k < n ==> !LeaksAt(c, s, ops, k)
  }

  /** Conservation over runs, exactly: the account holds in every state up to n if and only if no op so far lost
      an octet. */
  lemma {:induction false} ConservedIff(c: NetConfig, s: State, ops: seq<Op>, n: nat)
    requires n <= |ops| && WellFormedSubnet(c) && Safe(c, s)
    ensures (forall k :: 0 <= k <= n ==> Conserved(c, s, ops, k)) <==> NoLeak(c, s, ops, n)
  {
    hide Live, Step, Safe, ReservedAfter, WellFormedSubnet, Leaks;
    if n == 0 {
      LiveIsUsed(c, s);
      assert Conserved(c, s, ops, 0);
    } else {
      ConservedIff(c, s, ops, n - 1);
      AlwaysSafe(c, s, ops, n - 1);
      var before, reserved := At(c, s, ops, n - 1), StillReserved(c, s, ops, n - 1);
      assert Conserved(c, s, ops, n - 1) <==> before.used == reserved + Live(before);
      assert LeaksAt(c, s, ops, n - 1) <==> Leaks(before, ops[n - 1], reserved);
      assert Conserved(c, s, ops, n) <==>
        Step(c, before, ops[n - 1]).used == ReservedAfter(before, ops[n - 1],
                                                          reserved) + Live(Step(c, before, ops[n - 1]));
      if before.used == reserved + Live(before) {
        StepConservesIff(c, before, ops[n - 1], reserved);
      }
      assert NoLeak(c, s, ops, n) <==> NoLeak(c, s, ops, n - 1) && !LeaksAt(c, s, ops, n - 1);
    }
  }

  /** In particular on runs that never re-provision a box still in the map. */
  lemma Conservation(c: NetConfig, s: State, ops: seq<Op>, n: nat)
    requires n <= |ops| && WellFormedSubnet(c) && Safe(c, s) && NeverReprovisions(c, s, ops)
    ensures At(c, s, ops, n).used == StillReserved(c, s, ops, n) + Live(At(c, s, ops, n))
  {
    hide At, Safe, Live, WellFormedSubnet;
    ConservedIff(c, s, ops, n);
    assert Conserved(c, s, ops, n);
  }

  /** In an account where live octets are not also reserved, a booting Provision of a box in the map always leaks. */
  lemma ReprovisionLeaks(c: NetConfig, s: State, reserved: set<int>, ref: Ref, image: string)
    requires WellFormedSubnet(c) && Safe(c, s)
    requires s.used == reserved + Live(s) && reserved !! Live(s) && !Full(s.used)
    ensures var s' := Step(c, s, Provision(ref, image, Boots));
            s'.used == reserved + Live(s') <==> ref !in s.vms
  {
    hide LastOctet, WellFormedSubnet, Safe, Full, Step, Live;
    StepConservesIff(c, s, Provision(ref, image, Boots), reserved);
    if ref in s.vms {
      LiveHas(s, ref);
    }
  }

  // ---- taps across a restart ----

  /** Op n frees octet o. */
  ghost predicate Frees(c: NetConfig, s: State, ops: seq<Op>, n: nat, o: int)
    requires n < |ops|
  {
    var before := At(c, s, ops, n);
    ops[n].Destroy? && ops[n].ref in before.vms && LastOctet(before.vms[ops[n].ref].ip) == o
  }

  lemma {:induction false} StaysUsed(c: NetConfig, s: State, ops: seq<Op>, n: nat, o: int)
    requires n <= |ops| && o in s.used && forall k :: 0 <= k < n ==> !Frees(c, s, ops, k, o)
    ensures o in At(c, s, ops, n).used
  {
    hide LastOctet;
    if n > 0 {
      StaysUsed(c, s, ops, n - 1, o);
      assert !Frees(c, s, ops, n - 1, o);
    }
  }

  /** A tap visible on the host when the daemon starts is never handed to a box until its address is freed. */
  lemma VisibleTapIsNotReused(c: NetConfig, links: seq<Link>, i: nat, o: nat, disk: map<Ref, Dir>, rebuilt: set<Ref>,
                              ops: seq<Op>, n: nat)
    requires WellFormedSubnet(c) && o <= 255 && i < |links| && n < |ops|
    requires forall k :: 0 <= k < |links| ==> WellFormedLink(links[k])
    requires links[i].name == TapName(c, Ip(c, o))
    requires var s := Restarted(disk, rebuilt, set p | p in OctetsIn(c.tapPrefix, Split(Listing(links), '\n')));
             forall k :: 0 <= k < n ==> !Frees(c, s, ops, k, o)
    ensures var s := Restarted(disk, rebuilt, set p | p in OctetsIn(c.tapPrefix, Split(Listing(links), '\n')));
            Alloc(At(c, s, ops, n).used) != Some(o)
  {
    VisibleTapIsRead(c, links, i, o);
    hide OctetsIn, Split, Listing, LastOctet;
    var s := Restarted(disk, rebuilt, set p | p in OctetsIn(c.tapPrefix, Split(Listing(links), '\n')));
    StaysUsed(c, s, ops, n, o);
  }

  // ---- the object ----

  class Provider {
    const net: VmNet
    var vms: map<Ref, Vm>
    var disk: map<Ref, Dir>

    constructor (net: VmNet, disk: map<Ref, Dir>)
      ensures this.net == net && this.disk == disk && vms == map[]
    {
      this.net, this.disk, vms := net, disk, map[];
    }

    ghost function Now(): State
      reads this, net
    {
      State(vms, net.used, disk)
    }

    /** reattach, over the run directories in any order. */
    method Reattach(rebuilt: set<Ref>)
      requires vms == map[]
      modifies this, net
      ensures Now() == Restarted(old(disk), rebuilt, old(net.used))
    {
      hide LastOctet, Readable, Restarted;
      var left := disk.Keys;
      ReadableNone();
      while left != {}
        invariant left <= disk.Keys && disk == old(disk)
        invariant forall ref :: ref in vms <==> ref in disk && ref !in left && Reattaches(disk, rebuilt, ref)
        invariant forall ref :: ref in vms ==> vms[ref] == Reattached(disk[ref])
        invariant net.used == old(net.used) + Readable(vms)
        decreases left
      {
        var ref :| ref in left;
        left := left - {ref};
        if Reattaches(disk, rebuilt, ref) {
          net.ReserveIP(disk[ref].record.value.ip);
          ReadableInsert(vms, ref, Reattached(disk[ref]));
          vms := vms[ref := Reattached(disk[ref])];
        }
      }
      RestartedIs(disk, rebuilt, old(net.used), vms);
    }

    method Provision(ref: Ref, image: string, boot: Boot) returns (r: Option<Vm>)
      requires WellFormedSubnet(net.cfg)
      modifies this, net
      ensures Now() == Provisioned(net.cfg, old(Now()), ref, image, boot)
      ensures r.Some? ==> boot == Boots && ref in vms && vms[ref] == r.value
      ensures r.None? ==> vms == old(vms) && net.used == old(net.used)
    {
      if boot == NoDir {
        return None;
      }
      if boot == NoRootfs {
        disk := disk - {ref};
        return None;
      }
      var got := net.AllocIP();
      AllocFailsIffFull(old(net.used));
      if got.None? {
        disk := disk - {ref};
        return None;
      }
      var ip := Ip(net.cfg, got.value);
      LastOctetOfIp(net.cfg, got.value);
      hide LastOctet, Ip;
      if boot != Boots {
        net.FreeIP(ip);
        disk := disk - {ref};
        return None;
      }
      var v := NewVm(net.cfg, image, got.value);
      disk := Persisted(disk, ref, v, HasSnapshot(disk, ref));
      vms := vms[ref := v];
      return Some(v);
    }

    method Suspend(ref: Ref, ok: bool, left: bool) returns (r: bool)
      modifies this
      ensures r == SuspendOk(old(Now()), ref, ok) && Now() == Suspended(old(Now()), ref, ok, left)
    {
      if ref !in vms {
        return false;
      }
      if vms[ref].suspended {
        return true;
      }
      if !ok {
        if left && ref in disk {
          disk := disk[ref := disk[ref].(snapshot := true)];
        }
        return false;
      }
      var v := vms[ref].(suspended := true);
      vms := vms[ref := v];
      disk := Persisted(disk, ref, v, true);
      return true;
    }

    method Resume(ref: Ref, ok: bool) returns (r: bool)
      modifies this
      ensures r == ResumeOk(old(Now()), ref, ok) && Now() == Resumed(old(Now()), ref, ok)
    {
      if ref !in vms {
        return false;
      }
      if !vms[ref].suspended {
        return true;
      }
      if !ok {
        return false;
      }
      var v := vms[ref].(suspended := false, handle := true, exited := false);
      vms := vms[ref := v];
      disk := Persisted(disk, ref, v, HasSnapshot(disk, ref));
      return true;
    }

    method Destroy(ref: Ref, removed: bool) returns (ok: bool)
      requires CanDestroy(Now(), ref)
      modifies this, net
      ensures Now() == Destroyed(old(Now()), ref, removed)
      ensures ok <==> ref !in old(vms) || removed
    {
      ok := true;
      if ref in vms {
        var v := vms[ref];
        vms := vms - {ref};
        net.FreeIP(v.ip);
        if removed {
          disk := disk - {ref};
        }
        ok := removed;
      }
    }
  }

  /** What a restart brings back: exactly the boxes with a record, a snapshot and a rootfs that can be rebuilt, asleep
      and without a process, under their recorded image, address and tap. */
  lemma RestartedVm(disk: map<Ref, Dir>, rebuilt: set<Ref>, taps: set<int>, r: Ref)
    ensures var s := Restarted(disk, rebuilt, taps);
            && (r in s.vms <==> r in disk && disk[r].record.Some? && disk[r].snapshot && r in rebuilt)
            && (r in s.vms ==>
                  var rec := disk[r].record.value;
                  s.vms[r] == Vm(rec.image, rec.ip, rec.tap, true, false, false))
            && s.disk == disk && taps <= s.used
            && (r in s.vms && LastOctet(s.vms[r].ip) >= 0 ==> LastOctet(s.vms[r].ip) in s.used)
            && (forall o :: o in s.used && o !in taps ==> exists q :: q in s.vms && LastOctet(s.vms[q].ip) == o)
  {
    hide LastOctet;
  }
}
