/** Virtual machines and the volumes they hold on to (`src/aleph/handlers/content/vm.py` and
    `src/aleph/db/accessors/vms.py`). */
module Vms {
  import opened Wrappers
  import opened Records

  datatype VmRow = VmRow(owner: Address, machine: Machine, volumes: seq<Volume>)

  type VmTable = map<Hash, VmRow>

  function RowOf(m: Message): VmRow
    requires m.content.Vm?
  {
    VmRow(m.address, m.content.machine, m.content.volumes)
  }

  // ----- admission

  function MachineRefs(machine: Machine): set<VolumeRef> {
    match machine
    case Program(code, runtime, data) => {code, runtime} + if data.Some? then {data.value} else {}
    case Instance(rootfs) => {rootfs}
  }

  function VolumeRefs(volumes: seq<Volume>): set<VolumeRef> {
    (set v | v in volumes && v.Immutable? :: v.volume) +
    (set v | v in volumes && v.Persistent? && v.parent.Some? :: v.parent.value)
  }

  function References(machine: Machine, volumes: seq<Volume>): set<VolumeRef> {
    MachineRefs(machine) + VolumeRefs(volumes)
  }

  /** The references that are neither a known tag, for the latest version, nor a pinned message, for a fixed one. */
  function Missing(machine: Machine, volumes: seq<Volume>, pins: set<Hash>, tags: set<string>): set<Hash> {
    set r | r in References(machine, volumes) && (if r.useLatest then r.ref !in tags else r.ref !in pins) :: r.ref
  }

  method FindMissingVolumes(machine: Machine, volumes: seq<Volume>, pins: set<Hash>, tags: set<string>)
      returns (missing: set<Hash>)
    ensures missing == Missing(machine, volumes, pins, tags)
  {
    var toCheck := MachineRefs(machine);
    for i := 0 to |volumes|
      invariant toCheck == References(machine, volumes[..i])
    {
      VolumeRefsSnoc(volumes, i);
      match volumes[i]
      case Immutable(v) => toCheck := toCheck + {v};
      case Persistent(Some(parent)) => toCheck := toCheck + {parent};
      case _ =>
    }
    assert volumes[..|volumes|] == volumes;
    var tagsToCheck := set r | r in toCheck && r.useLatest :: r.ref;
    var pinsToCheck := set r | r in toCheck && !r.useLatest :: r.ref;
    missing := (pinsToCheck - pins) + (tagsToCheck - tags);
  }

  /** The reference can be met: a known tag for the latest version, a pinned message for a fixed one. */
  predicate Available(r: VolumeRef, pins: set<Hash>, tags: set<string>) {
    if r.useLatest then r.ref in tags else r.ref in pins
  }

  /** The machine or one of its volumes names the reference. */
  ghost predicate Refers(machine: Machine, volumes: seq<Volume>, r: VolumeRef) {
    || (machine.Program? && (machine.code == r || machine.runtime == r || machine.data == Some(r)))
    || (machine.Instance? && machine.rootfs == r)
    || Immutable(r) in volumes || Persistent(Some(r)) in volumes
  }

  /** A hash is missing if and only if a reference to it cannot be met. */
  lemma {:induction false} MissingIff(machine: Machine, volumes: seq<Volume>, pins: set<Hash>, tags: set<string>,
                                      h: Hash)
    ensures h in Missing(machine, volumes, pins, tags) <==>
            exists r :: Refers(machine, volumes, r) && r.ref == h && !Available(r, pins, tags)
  {
    forall r ensures r in References(machine, volumes) <==> Refers(machine, volumes, r) {
      if r in VolumeRefs(volumes) {
        assert Immutable(r) in volumes || Persistent(Some(r)) in volumes;
      }
    }
  }

  /** A machine is admitted if and only if every reference it has can be met: code, runtime and data of a program, the
      root file system of an instance, every immutable volume and every parent of a persistent one. */
  lemma {:induction false} AdmittedIff(machine: Machine, volumes: seq<Volume>, pins: set<Hash>, tags: set<string>)
    ensures Missing(machine, volumes, pins, tags) == {} <==>
            && (match machine
                case Program(code, runtime, data) =>
                  && Available(code, pins, tags) && Available(runtime, pins, tags)
                  && (data.Some? ==> Available(data.value, pins, tags))
                case Instance(rootfs) => Available(rootfs, pins, tags))
            && (forall r :: Immutable(r) in volumes ==> Available(r, pins, tags))
            && (forall r :: Persistent(Some(r)) in volumes ==> Available(r, pins, tags))
  {
    var missing := Missing(machine, volumes, pins, tags);
    forall r | Refers(machine, volumes, r) && !Available(r, pins, tags) ensures r.ref in missing {
      MissingIff(machine, volumes, pins, tags, r.ref);
    }
    if h :| h in missing {
      MissingIff(machine, volumes, pins, tags, h);
    }
  }

  lemma {:induction false} VolumeRefsSnoc(volumes: seq<Volume>, i: nat)
    requires i < |volumes|
    ensures VolumeRefs(volumes[..i + 1]) == VolumeRefs(volumes[..i]) +
            match volumes[i] { case Immutable(v) => {v} case Persistent(Some(p)) => {p} case _ => {} }
  {
    assert volumes[..i + 1] == volumes[..i] + [volumes[i]];
  }

  // ----- the check that protects volumes

  predicate MachineUses(machine: Machine, volume: Hash) {
    match machine
    case Program(code, runtime, data) => code.ref == volume || runtime.ref == volume
      || (data.Some? && data.value.ref == volume)
    case Instance(rootfs) => rootfs.ref == volume
  }

  function ImmutableRefs(volumes: seq<Volume>): seq<Hash> {
    if volumes == [] then []
    else (if volumes[0].Immutable? then [volumes[0].volume.ref] else []) + ImmutableRefs(volumes[1..])
  }

  function CountOf(refs: seq<Hash>, volume: Hash): nat {
    if refs == [] then 0 else (if refs[0] == volume then 1 else 0) + CountOf(refs[1..], volume)
  }

  /** How many rows of the outer join match: one an immutable volume when the machine itself matches. */
  function JoinedRows(row: VmRow, volume: Hash): nat {
    var refs := ImmutableRefs(row.volumes);
    if MachineUses(row.machine, volume) then (if refs == [] then 1 else |refs|) else CountOf(refs, volume)
  }

  function Dependents(vms: VmTable, volume: Hash): set<Hash> {
    set v | v in vms && JoinedRows(vms[v], volume) > 0
  }

  /** `get_vms_dependent_volumes` expects at most one row: one refuses the FORGET, several are an unexpected error. */
  function CheckVolume(vms: VmTable, volume: Hash): Option<ProcessingError> {
    var ds := Dependents(vms, volume);
    if ds == {} then None
    else if |ds| == 1 && forall v :: v in ds ==> JoinedRows(vms[v], volume) == 1 then Some(ForgetNotAllowed)
    else Some(Database)
  }

  // ----- protection

  /** The volumes a machine uses in a fixed version, persistent-volume parents apart. */
  function FixedRefs(row: VmRow): set<Hash> {
    (set r | r in MachineRefs(row.machine) && !r.useLatest :: r.ref) +
    (set v | v in row.volumes && v.Immutable? && !v.volume.useLatest :: v.volume.ref)
  }

  ghost predicate VolumesPinned(vms: VmTable, pins: set<Hash>) {
    forall v, r :: v in vms && r in FixedRefs(vms[v]) ==> r in pins
  }

  /** The machine uses the message as a volume in a fixed version. */
  predicate UsesFixed(machine: Machine, volumes: seq<Volume>, h: Hash) {
    || (machine.Program? && (machine.code == VolumeRef(h, false) || machine.runtime == VolumeRef(h, false)
                             || machine.data == Some(VolumeRef(h, false))))
    || (machine.Instance? && machine.rootfs == VolumeRef(h, false))
    || Immutable(VolumeRef(h, false)) in volumes
  }

  lemma {:induction false} FixedIff(row: VmRow, h: Hash)
    ensures h in FixedRefs(row) <==> UsesFixed(row.machine, row.volumes, h)
  {
    if UsesFixed(row.machine, row.volumes, h) {
      assert VolumeRef(h, false).ref == h;
      if Immutable(VolumeRef(h, false)) in row.volumes {
        assert Immutable(VolumeRef(h, false)).volume.ref == h;
      }
    }
    if v :| v in row.volumes && v.Immutable? && !v.volume.useLatest && v.volume.ref == h {
      assert v == Immutable(VolumeRef(h, false));
    }
  }

  /** Admission establishes the pins. */
  lemma {:induction false} AdmittedPinned(m: Message, pins: set<Hash>, tags: set<string>)
    requires m.content.Vm? && Missing(m.content.machine, m.content.volumes, pins, tags) == {}
    ensures FixedRefs(RowOf(m)) <= pins
  {
    forall r | r in FixedRefs(RowOf(m)) ensures r in pins {
      var v :| v in References(m.content.machine, m.content.volumes) && !v.useLatest && v.ref == r;
      assert r in Missing(m.content.machine, m.content.volumes, pins, tags) || r in pins;
    }
  }

  /** A machine names the volume as code, runtime, data, root file system or immutable volume, in whatever version. */
  ghost predicate Holds(row: VmRow, volume: Hash) {
    HoldsDirectly(row.machine, volume) || exists v :: v in row.volumes && v.Immutable? && v.volume.ref == volume
  }

  predicate HoldsDirectly(machine: Machine, volume: Hash) {
    || (machine.Program? && (machine.code.ref == volume || machine.runtime.ref == volume))
    || (machine.Program? && machine.data.Some? && machine.data.value.ref == volume)
    || (machine.Instance? && machine.rootfs.ref == volume)
  }

  /** An immutable volume joins the query's result: any of them when the machine itself names the volume. */
  predicate Joins(v: Volume, volume: Hash, directly: bool) {
    v.Immutable? && (directly || v.volume.ref == volume)
  }

  /** No two of the volumes join. */
  ghost predicate JoinsOnce(volumes: seq<Volume>, volume: Hash, directly: bool) {
    forall i, j :: 0 <= i < j < |volumes| ==>
      !(Joins(volumes[i], volume, directly) && Joins(volumes[j], volume, directly))
  }

  lemma {:induction false} CountMeans(volumes: seq<Volume>, volume: Hash)
    ensures CountOf(ImmutableRefs(volumes), volume) > 0 <==>
            exists v :: v in volumes && v.Immutable? && v.volume.ref == volume
  {
    if volumes != [] {
      var refs := ImmutableRefs(volumes);
      CountMeans(volumes[1..], volume);
      assert volumes == [volumes[0]] + volumes[1..];
      if volumes[0].Immutable? {
        assert volumes[0] in volumes && refs[1..] == ImmutableRefs(volumes[1..]);
      } else {
        assert refs == ImmutableRefs(volumes[1..]);
      }
    }
  }

  /** The check refuses a volume if and only if some machine holds it: a fixed or a latest version alike, and not as
      the parent of a persistent volume. */
  lemma {:induction false} RefusedIffHeld(vms: VmTable, volume: Hash)
    ensures CheckVolume(vms, volume).Some? <==> exists v :: v in vms && Holds(vms[v], volume)
  {
    forall v | v in vms ensures JoinedRows(vms[v], volume) > 0 <==> Holds(vms[v], volume) {
      CountMeans(vms[v].volumes, volume);
    }
    if v :| v in vms && Holds(vms[v], volume) {
      assert v in Dependents(vms, volume);
    }
    if CheckVolume(vms, volume).Some? {
      var v :| v in Dependents(vms, volume);
      assert v in vms && Holds(vms[v], volume);
    }
  }

  /** No FORGET of a volume passes the check while a machine uses it in a fixed version. */
  lemma {:induction false} UsedVolumeRefused(vms: VmTable, v: Hash, volume: Hash)
    requires v in vms && volume in FixedRefs(vms[v])
    ensures CheckVolume(vms, volume).Some?
  {
    RefusedIffHeld(vms, volume);
    assert Holds(vms[v], volume);
  }

  /** A parent of a persistent volume is checked on admission and not protected afterwards. */
  lemma {:induction false} PersistentParentUnprotected(v: Hash, owner: Address, rootfs: VolumeRef, parent: VolumeRef)
    requires rootfs.ref != parent.ref
    ensures var row := VmRow(owner, Instance(rootfs), [Persistent(Some(parent))]);
            parent in References(row.machine, row.volumes) && CheckVolume(map[v := row], parent.ref).None?
  {
    var p := Persistent(Some(parent));
    assert p in [p];
    assert [p][1..] == [];
    assert ImmutableRefs([p]) == [];
  }

  function JoinCount(volumes: seq<Volume>, volume: Hash, directly: bool): nat {
    if directly then |ImmutableRefs(volumes)| else CountOf(ImmutableRefs(volumes), volume)
  }

  ghost predicate NoneJoins(volumes: seq<Volume>, volume: Hash, directly: bool) {
    forall i :: 0 <= i < |volumes| ==> !Joins(volumes[i], volume, directly)
  }

  lemma {:induction false} JoinsCons(volumes: seq<Volume>, volume: Hash, directly: bool)
    requires volumes != []
    ensures JoinsOnce(volumes, volume, directly) <==>
            && JoinsOnce(volumes[1..], volume, directly)
            && (Joins(volumes[0], volume, directly) ==> NoneJoins(volumes[1..], volume, directly))
    ensures NoneJoins(volumes, volume, directly) <==>
            !Joins(volumes[0], volume, directly) && NoneJoins(volumes[1..], volume, directly)
  {
    hide Joins;
    var rest := volumes[1..];
    assert forall i :: 0 <= i < |rest| ==> rest[i] == volumes[i + 1];
    assert forall i :: 0 < i < |volumes| ==> volumes[i] == rest[i - 1];
  }

  lemma {:induction false} JoinCountCons(volumes: seq<Volume>, volume: Hash, directly: bool)
    requires volumes != []
    ensures JoinCount(volumes, volume, directly) ==
            JoinCount(volumes[1..], volume, directly) + if Joins(volumes[0], volume, directly) then 1 else 0
  {
    var rest, refs := volumes[1..], ImmutableRefs(volumes);
    if volumes[0].Immutable? {
      assert refs[1..] == ImmutableRefs(rest);
    } else {
      assert refs == ImmutableRefs(rest);
    }
  }

  lemma {:induction false} JoinCountMeans(volumes: seq<Volume>, volume: Hash, directly: bool)
    ensures JoinCount(volumes, volume, directly) == 0 <==> NoneJoins(volumes, volume, directly)
    ensures JoinCount(volumes, volume, directly) <= 1 <==> JoinsOnce(volumes, volume, directly)
  {
    if volumes != [] {
      hide JoinCount, NoneJoins, JoinsOnce;
      JoinCountMeans(volumes[1..], volume, directly);
      JoinCountCons(volumes, volume, directly);
      JoinsCons(volumes, volume, directly);
    }
  }

  /** A machine that holds the volume gives one row exactly if no two of its volumes join. */
  lemma {:induction false} OneRowIff(row: VmRow, volume: Hash)
    requires Holds(row, volume)
    ensures JoinedRows(row, volume) == 1 <==> JoinsOnce(row.volumes, volume, HoldsDirectly(row.machine, volume))
    ensures JoinedRows(row, volume) > 0
  {
    var directly := HoldsDirectly(row.machine, volume);
    JoinCountMeans(row.volumes, volume, directly);
    CountMeans(row.volumes, volume);
    assert JoinedRows(row, volume) == if directly && ImmutableRefs(row.volumes) == [] then 1
                                      else JoinCount(row.volumes, volume, directly);
  }

  /** The only machine that holds the volume. */
  ghost predicate SoleHolder(vms: VmTable, volume: Hash, v: Hash) {
    v in vms && Holds(vms[v], volume) && forall w :: w in vms && Holds(vms[w], volume) ==> w == v
  }

  lemma {:induction false} SoleDependent(vms: VmTable, volume: Hash, v: Hash)
    ensures SoleHolder(vms, volume, v) <==> Dependents(vms, volume) == {v}
  {
    hide Holds, JoinedRows;
    forall w | w in vms ensures w in Dependents(vms, volume) <==> Holds(vms[w], volume) {
      DependentIff(vms, w, volume);
    }
    if SoleHolder(vms, volume, v) {
      assert Dependents(vms, volume) == {v};
    }
    if Dependents(vms, volume) == {v} {
      assert v in Dependents(vms, volume);
    }
  }

  /** The refusal is final if and only if exactly one machine holds the volume and no two of its volumes join;
      otherwise the query fails and the FORGET is retried. */
  lemma {:induction false} RefusalFinalIff(vms: VmTable, volume: Hash)
    ensures CheckVolume(vms, volume) == Some(ForgetNotAllowed) <==>
            exists v :: SoleHolder(vms, volume, v)
                        && JoinsOnce(vms[v].volumes, volume, HoldsDirectly(vms[v].machine, volume))
    ensures CheckVolume(vms, volume).Some? ==> CheckVolume(vms, volume).value in {ForgetNotAllowed, Database}
  {
    hide JoinsOnce, Holds, HoldsDirectly, JoinedRows, Dependents;
    var ds := Dependents(vms, volume);
    if v :| SoleHolder(vms, volume, v) {
      SoleDependent(vms, volume, v);
      OneRowIff(vms[v], volume);
      assert v in ds;
      forall w | SoleHolder(vms, volume, w) ensures w == v {
        SoleDependent(vms, volume, w);
        assert w in ds;
      }
    } else if |ds| == 1 {
      var v := PickOne(ds);
      assert |ds - {v}| == 0;
      assert ds == {v};
      SoleDependent(vms, volume, v);
    }
  }

  lemma {:induction false} DependentIff(vms: VmTable, v: Hash, volume: Hash)
    requires v in vms
    ensures v in Dependents(vms, volume) <==> Holds(vms[v], volume)
  {
    CountMeans(vms[v].volumes, volume);
  }
}
