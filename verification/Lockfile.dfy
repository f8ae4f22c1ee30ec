/** Pinning component references to exact revisions. */
module Lockfile {
  import opened Common
  import opened Text
  import opened Semver
  import opened Contract

  datatype Revision = Revision(version: Version, yanked: bool)

  /** What a catalog answers: the published revisions of a component, and whether a revision,
      yanked or not, exists. */
  datatype Catalog = Catalog(revisions: string -> seq<Revision>, hasRevision: (string, string) -> bool)

  datatype Reason =
    | NotARef
    | BadRange(range: string)
    | NothingMatches(id: string)
    | MissingPin
    | BadPin(pin: string)
    | NotInCatalog(pin: string)

  datatype ResolveError = ResolveError(componentRef: string, reason: Reason)

  datatype UpgradeDiff = UpgradeDiff(componentRef: string, from: string, to: string)

  function RefParts(componentRef: string): Result<(string, Range), Reason> {
    match RsplitOnce(componentRef, '@')
    case None => Err(NotARef)
    case Some((id, range)) => match ParseRange(range) case None => Err(BadRange(range)) case Some(r) => Ok((id, r))
  }

  // ---------------------------------------------------------------- the references of a contract

  function SlotRef(slot: Slot): Option<string> {
    match Equipped(slot) case None => None case Some(k) => slot.variants[k].componentRef
  }

  function Present(o: Option<string>): seq<string> { if o.Some? then [o.value] else [] }

  function SlotRefs(slots: seq<Slot>): seq<string> {
    if slots == [] then [] else SlotRefs(slots[..|slots| - 1]) + Present(SlotRef(slots[|slots| - 1]))
  }

  function MotorRefs(motors: seq<Option<string>>): seq<string> {
    if motors == [] then [] else MotorRefs(motors[..|motors| - 1]) + Present(motors[|motors| - 1])
  }

  /** The references of the equipped variants, then those of the motors. */
  function RefsOf(spec: ModelSpec): seq<string> { SlotRefs(spec.slots) + MotorRefs(spec.motors) }

  method EachRef(spec: ModelSpec) returns (refs: seq<string>)
    ensures refs == RefsOf(spec)
  {
    refs := [];
    for i := 0 to |spec.slots|
      invariant refs == SlotRefs(spec.slots[..i])
    {
      assert spec.slots[..i + 1][..i] == spec.slots[..i];
      var r := SlotRef(spec.slots[i]);
      if r.Some? { refs := refs + [r.value]; }
    }
    assert spec.slots[..|spec.slots|] == spec.slots;
    ghost var slots := refs;
    for i := 0 to |spec.motors|
      invariant refs == slots + MotorRefs(spec.motors[..i])
    {
      assert spec.motors[..i + 1][..i] == spec.motors[..i];
      if spec.motors[i].Some? { refs := refs + [spec.motors[i].value]; }
    }
    assert spec.motors[..|spec.motors|] == spec.motors;
  }

  // ---------------------------------------------------------------- one reference

  predicate Eligible(r: Revision, range: Range) { !r.yanked && Matches(range, r.version) }

  function Newer(a: Option<Version>, v: Version): Option<Version> {
    if a.Some? && AtMost(v, a.value) then a else Some(v)
  }

  function Newest(revisions: seq<Revision>, range: Range): Option<Version> {
    if revisions == [] then None
    else
      var last := revisions[|revisions| - 1];
      var best := Newest(revisions[..|revisions| - 1], range);
      if Eligible(last, range) then Newer(best, last.version) else best
  }

  /** The newest eligible revision: one of them, and none is newer; there is none only when no
      revision is eligible. */
  lemma {:induction false} NewestIsMaximum(revisions: seq<Revision>, range: Range)
    ensures var n := Newest(revisions, range);
      && (n.Some? ==>
            exists i :: 0 <= i < |revisions| && Eligible(revisions[i], range) && revisions[i].version == n.value)
      && (forall i ::
            0 <= i < |revisions| && Eligible(revisions[i], range) ==> n.Some? && AtMost(revisions[i].version, n.value))
  {
    if revisions != [] { NewestIsMaximum(revisions[..|revisions| - 1], range); }
  }

  function PinText(id: string, v: Version): string { id + ['@'] + Display(v) }

  /** An existing pin that may be kept: same component, still in range, still in the catalog. */
  predicate KeepsPin(source: Catalog, lockfile: map<string, string>, componentRef: string, id: string, range: Range) {
    componentRef in lockfile &&
    match RsplitOnce(lockfile[componentRef], '@')
    case None => false
    case Some((pinId, pinRev)) =>
      pinId == id &&
      match ParseVersion(pinRev)
      case None => false
      case Some(v) => Matches(range, v) && source.hasRevision(pinId, pinRev)
  }

  function FreshPin(source: Catalog, id: string, range: Range): Result<string, Reason> {
    match Newest(source.revisions(id), range)
    case Some(v) => Ok(PinText(id, v))
    case None => Err(NothingMatches(id))
  }

  function PinOne(source: Catalog, lockfile: map<string, string>, componentRef: string): Result<string, Reason> {
    match RefParts(componentRef)
    case Err(e) => Err(e)
    case Ok((id, range)) =>
      if KeepsPin(source, lockfile, componentRef, id, range) then Ok(lockfile[componentRef])
      else FreshPin(source, id, range)
  }

  function UpgradeOne(source: Catalog, componentRef: string): Result<string, Reason> {
    match RefParts(componentRef) case Err(e) => Err(e) case Ok((id, range)) => FreshPin(source, id, range)
  }

  /** What is wrong with a reference's pin, if anything. */
  function CheckOne(source: Catalog, lockfile: map<string, string>, componentRef: string): Option<Reason> {
    if componentRef !in lockfile then Some(MissingPin)
    else
      var pin := lockfile[componentRef];
      match RsplitOnce(pin, '@')
      case None => Some(BadPin(pin))
      case Some((id, rev)) => if source.hasRevision(id, rev) then None else Some(NotInCatalog(pin))
  }

  // ---------------------------------------------------------------- all references

  /** The errors of the references that fail, in order. */
  function Errors(refs: seq<string>, one: string -> Result<string, Reason>): seq<ResolveError> {
    if refs == [] then []
    else
      var last := refs[|refs| - 1];
      Errors(refs[..|refs| - 1], one) + match one(last) case Ok(_) => [] case Err(e) => [ResolveError(last, e)]
  }

  /** The pins of the references that succeed. */
  function Pins(refs: seq<string>, one: string -> Result<string, Reason>): map<string, string> {
    if refs == [] then map[]
    else
      var last := refs[|refs| - 1];
      var m := Pins(refs[..|refs| - 1], one);
      match one(last) case Ok(pin) => m[last := pin] case Err(_) => m
  }

  function Collected(refs: seq<string>, one: string -> Result<string, Reason>):
    Result<map<string, string>, seq<ResolveError>> {
    var errors := Errors(refs, one);
    if errors == [] then Ok(Pins(refs, one)) else Err(errors)
  }

  function Moves(refs: seq<string>, lockfile: map<string, string>,
                 one: string -> Result<string, Reason>): seq<UpgradeDiff> {
    if refs == [] then []
    else
      var last := refs[|refs| - 1];
      Moves(refs[..|refs| - 1], lockfile, one) +
      match one(last)
      case Err(_) => []
      case Ok(pin) => if last in lockfile && lockfile[last] != pin then [UpgradeDiff(last, lockfile[last], pin)] else []
  }

  function Unresolved(refs: seq<string>, check: string -> Option<Reason>): seq<ResolveError> {
    if refs == [] then []
    else
      var last := refs[|refs| - 1];
      Unresolved(refs[..|refs| - 1], check) + match check(last) case None => [] case Some(e) => [ResolveError(last, e)]
  }

  function Pinner(source: Catalog, lockfile: map<string, string>): string -> Result<string, Reason> {
    (r: string) => PinOne(source, lockfile, r)
  }

  function Upgrader(source: Catalog): string -> Result<string, Reason> { (r: string) => UpgradeOne(source, r) }

  function Checker(source: Catalog, lockfile: map<string, string>): string -> Option<Reason> {
    (r: string) => CheckOne(source, lockfile, r)
  }

  lemma CollectStep(refs: seq<string>, i: nat, lockfile: map<string, string>, one: string -> Result<string, Reason>)
    requires i < |refs|
    ensures Pins(refs[..i + 1], one)
      == match one(refs[i]) case Ok(pin) => Pins(refs[..i], one)[refs[i] := pin] case Err(_) => Pins(refs[..i], one)
    ensures Errors(refs[..i + 1], one)
      == Errors(refs[..i], one) + match one(refs[i]) case Ok(_) => [] case Err(e) => [ResolveError(refs[i], e)]
    ensures Moves(refs[..i + 1], lockfile, one) == Moves(refs[..i], lockfile, one) +
      match one(refs[i])
      case Err(_) => []
      case Ok(pin) =>
        if refs[i] in lockfile && lockfile[refs[i]] != pin then [UpgradeDiff(refs[i], lockfile[refs[i]], pin)] else []
  {
    assert refs[..i + 1][..i] == refs[..i];
  }

  /** Visits the references in order, filling a lockfile and a list of errors, and noting every
      existing pin that changes. */
  method VisitRefs(refs: seq<string>, existing: map<string, string>, one: string -> Result<string, Reason>)
    returns (lockfile: map<string, string>, errors: seq<ResolveError>, diffs: seq<UpgradeDiff>)
    ensures lockfile == Pins(refs, one) && errors == Errors(refs, one) && diffs == Moves(refs, existing, one)
  {
    lockfile, errors, diffs := map[], [], [];
    for i := 0 to |refs|
      invariant
        lockfile == Pins(refs[..i], one) && errors == Errors(refs[..i], one) && diffs == Moves(refs[..i], existing, one)
    {
      CollectStep(refs, i, existing, one);
      match one(refs[i])
      case Ok(pin) =>
        if refs[i] in existing && existing[refs[i]] != pin {
          diffs := diffs + [UpgradeDiff(refs[i], existing[refs[i]], pin)];
        }
        lockfile := lockfile[refs[i] := pin];
      case Err(e) => errors := errors + [ResolveError(refs[i], e)];
    }
    assert refs[..|refs|] == refs;
  }

  method PinRefs(spec: ModelSpec, source: Catalog) returns (r: Result<map<string, string>, seq<ResolveError>>)
    ensures r == Collected(RefsOf(spec), Pinner(source, spec.lockfile))
  {
    var refs := EachRef(spec);
    var lockfile, errors, _ := VisitRefs(refs, map[], Pinner(source, spec.lockfile));
    return if errors == [] then Ok(lockfile) else Err(errors);
  }

  method UpgradeLockfile(spec: ModelSpec, source: Catalog)
    returns (r: Result<(map<string, string>, seq<UpgradeDiff>), seq<ResolveError>>)
    ensures Collected(RefsOf(spec), Upgrader(source)).Err? ==> r == Err(Collected(RefsOf(spec), Upgrader(source)).error)
    ensures Collected(RefsOf(spec), Upgrader(source)).Ok? ==>
        r == Ok((Collected(RefsOf(spec), Upgrader(source)).value, Moves(RefsOf(spec), spec.lockfile, Upgrader(source))))
  {
    var refs := EachRef(spec);
    var lockfile, errors, diffs := VisitRefs(refs, spec.lockfile, Upgrader(source));
    return if errors == [] then Ok((lockfile, diffs)) else Err(errors);
  }

  method ResolveLockfile(spec: ModelSpec, source: Catalog) returns (unresolved: seq<ResolveError>)
    ensures unresolved == Unresolved(RefsOf(spec), Checker(source, spec.lockfile))
  {
    var refs := EachRef(spec);
    unresolved := CheckRefs(refs, Checker(source, spec.lockfile));
  }

  method CheckRefs(refs: seq<string>, check: string -> Option<Reason>) returns (unresolved: seq<ResolveError>)
    ensures unresolved == Unresolved(refs, check)
  {
    unresolved := [];
    for i := 0 to |refs|
      invariant unresolved == Unresolved(refs[..i], check)
    {
      assert refs[..i + 1][..i] == refs[..i];
      match check(refs[i])
      case None =>
      case Some(e) => unresolved := unresolved + [ResolveError(refs[i], e)];
    }
    assert refs[..|refs|] == refs;
  }
}
