/** What pinning and upgrading promise, for every contract and catalog. */
module LockfileTheorems {
  import opened Common
  import opened Text
  import opened Semver
  import opened Contract
  import opened Lockfile

  /** Every published revision can be looked up by its printed version. */
  ghost predicate Published(source: Catalog) {
    forall id, i :: 0 <= i < |source.revisions(id)| ==> source.hasRevision(id, Display(source.revisions(id)[i].version))
  }

  // ---------------------------------------------------------------- collected results

  /** A collected lockfile has exactly the references as keys, each with its own pin. */
  lemma {:induction false} CollectedPins(refs: seq<string>, one: string -> Result<string, Reason>)
    ensures Errors(refs, one) == [] <==> forall r :: r in refs ==> one(r).Ok?
    ensures Errors(refs, one) == [] ==>
        && (forall r :: r in Pins(refs, one) <==> r in refs)
        && forall r :: r in refs ==> Pins(refs, one)[r] == one(r).value
  {
    if refs != [] {
      var init, last := refs[..|refs| - 1], refs[|refs| - 1];
      CollectedPins(init, one);
      assert refs == init + [last];
    }
  }

  lemma {:induction false} SameCollected(refs: seq<string>, f: string -> Result<string, Reason>,
                                         g: string -> Result<string, Reason>)
    requires forall r :: r in refs ==> f(r) == g(r)
    ensures Pins(refs, f) == Pins(refs, g) && Errors(refs, f) == Errors(refs, g)
  {
    if refs != [] { SameCollected(refs[..|refs| - 1], f, g); }
  }

  lemma {:induction false} NoneUnresolved(refs: seq<string>, check: string -> Option<Reason>)
    requires forall r :: r in refs ==> check(r) == None
    ensures Unresolved(refs, check) == []
  {
    if refs != [] { NoneUnresolved(refs[..|refs| - 1], check); }
  }

  lemma {:induction false} NoMoves(refs: seq<string>, lockfile: map<string, string>,
                                   one: string -> Result<string, Reason>)
    requires forall r :: r in refs ==> one(r).Ok? && r in lockfile && lockfile[r] == one(r).value
    ensures Moves(refs, lockfile, one) == []
  {
    if refs != [] { NoMoves(refs[..|refs| - 1], lockfile, one); }
  }

  // ---------------------------------------------------------------- one pin

  /** A fresh pin names the component, a version in range, and a revision in the catalog. */
  lemma FreshPinIsGood(source: Catalog, lockfile: map<string, string>, r: string, id: string, range: Range)
    requires Published(source) && RefParts(r) == Ok((id, range)) && FreshPin(source, id, range).Ok?
    requires r in lockfile && lockfile[r] == FreshPin(source, id, range).value
    ensures KeepsPin(source, lockfile, r, id, range)
  {
    var revisions := source.revisions(id);
    NewestIsMaximum(revisions, range);
    var v := Newest(revisions, range).value;
    var i :| 0 <= i < |revisions| && Eligible(revisions[i], range) && revisions[i].version == v;
    DisplayWithoutAt(v);
    RsplitJoined(id, '@', Display(v));
    VersionRoundTrip(v);
  }

  /** Whatever is pinned can be kept as it is. */
  lemma PinnedIsKept(source: Catalog, lockfile: map<string, string>, next: map<string, string>, r: string)
    requires
      Published(source) && PinOne(source, lockfile, r).Ok? && r in next && next[r] == PinOne(source, lockfile, r).value
    ensures PinOne(source, next, r) == PinOne(source, lockfile, r) && CheckOne(source, next, r) == None
  {
    var (id, range) := RefParts(r).value;
    if !KeepsPin(source, lockfile, r, id, range) { FreshPinIsGood(source, next, r, id, range); }
  }

  lemma UpgradedIsKept(source: Catalog, next: map<string, string>, r: string)
    requires Published(source) && UpgradeOne(source, r).Ok? && r in next && next[r] == UpgradeOne(source, r).value
    ensures CheckOne(source, next, r) == None && PinOne(source, next, r) == Ok(next[r])
  {
    var (id, range) := RefParts(r).value;
    FreshPinIsGood(source, next, r, id, range);
  }

  // ---------------------------------------------------------------- whole lockfiles

  /** A successful pinning has exactly the referenced keys, resolves completely, and is a fixed
      point of pinning. */
  lemma PinningResolves(spec: ModelSpec, source: Catalog, m: map<string, string>)
    requires Published(source) && Collected(RefsOf(spec), Pinner(source, spec.lockfile)) == Ok(m)
    ensures forall r :: r in m <==> r in RefsOf(spec)
    ensures Unresolved(RefsOf(spec), Checker(source, m)) == []
    ensures Collected(RefsOf(spec), Pinner(source, m)) == Ok(m)
  {
    var refs := RefsOf(spec);
    CollectedPins(refs, Pinner(source, spec.lockfile));
    forall r | r in refs
      ensures Pinner(source, m)(r) == Pinner(source, spec.lockfile)(r) && Checker(source, m)(r) == None
    {
      PinnedIsKept(source, spec.lockfile, m, r);
    }
    NoneUnresolved(refs, Checker(source, m));
    SameCollected(refs, Pinner(source, m), Pinner(source, spec.lockfile));
  }

  /** A reference that cannot be pinned: it is malformed, or its pin cannot be kept and no
      revision is eligible. */
  ghost predicate Unpinnable(source: Catalog, lockfile: map<string, string>, r: string) {
    match RefParts(r)
    case Err(_) => true
    case Ok((id, range)) =>
      && !KeepsPin(source, lockfile, r, id, range)
      && forall i :: 0 <= i < |source.revisions(id)| ==> !Eligible(source.revisions(id)[i], range)
  }

  lemma FailsIffUnpinnable(source: Catalog, lockfile: map<string, string>, r: string)
    ensures PinOne(source, lockfile, r).Err? <==> Unpinnable(source, lockfile, r)
  {
    if RefParts(r).Ok? {
      var (id, range) := RefParts(r).value;
      NewestIsMaximum(source.revisions(id), range);
    }
  }

  /** Pinning fails exactly when some reference cannot be pinned. */
  lemma PinningFailsIff(spec: ModelSpec, source: Catalog)
    ensures Collected(RefsOf(spec), Pinner(source, spec.lockfile)).Err? <==>
        exists r :: r in RefsOf(spec) && Unpinnable(source, spec.lockfile, r)
  {
    CollectedPins(RefsOf(spec), Pinner(source, spec.lockfile));
    forall r | r in RefsOf(spec)
      ensures Pinner(source, spec.lockfile)(r).Err? <==> Unpinnable(source, spec.lockfile, r)
    {
      FailsIffUnpinnable(source, spec.lockfile, r);
    }
  }

  /** The reference's pin is valid under a catalog. */
  ghost predicate ValidPin(source: Catalog, lockfile: map<string, string>, r: string) {
    RefParts(r).Ok? && KeepsPin(source, lockfile, r, RefParts(r).value.0, RefParts(r).value.1)
  }

  /** The later catalog still has every revision of the earlier one; revisions may have been
      published or yanked in between. */
  ghost predicate Grows(before: Catalog, after: Catalog) {
    forall id, rev :: before.hasRevision(id, rev) ==> after.hasRevision(id, rev)
  }

  /** While all pins are valid, publishing and yanking never move a lockfile. */
  lemma CatalogUpdatesDoNotMove(spec: ModelSpec, before: Catalog, after: Catalog)
    requires Grows(before, after) && forall r :: r in RefsOf(spec) ==> ValidPin(before, spec.lockfile, r)
    ensures
      Collected(RefsOf(spec), Pinner(after, spec.lockfile)) == Collected(RefsOf(spec), Pinner(before, spec.lockfile))
    ensures Collected(RefsOf(spec), Pinner(after, spec.lockfile)).Ok?
    ensures forall r ::
        r in RefsOf(spec) ==>
          && r in spec.lockfile && r in Collected(RefsOf(spec), Pinner(after, spec.lockfile)).value
          && Collected(RefsOf(spec), Pinner(after, spec.lockfile)).value[r] == spec.lockfile[r]
  {
    var refs, lockfile := RefsOf(spec), spec.lockfile;
    forall r | r in refs
      ensures r in lockfile
      ensures Pinner(after, lockfile)(r) == Ok(lockfile[r]) && Pinner(before, lockfile)(r) == Ok(lockfile[r])
    {
      KeptEitherWay(before, after, lockfile, r);
    }
    SameCollected(refs, Pinner(after, lockfile), Pinner(before, lockfile));
    CollectedPins(refs, Pinner(after, lockfile));
  }

  lemma KeptEitherWay(before: Catalog, after: Catalog, lockfile: map<string, string>, r: string)
    requires Grows(before, after) && ValidPin(before, lockfile, r)
    ensures
      r in lockfile && PinOne(before, lockfile, r) == Ok(lockfile[r]) && PinOne(after, lockfile, r) == Ok(lockfile[r])
  {
    var (id, range) := RefParts(r).value;
    assert KeepsPin(after, lockfile, r, id, range);
  }

  /** Upgrading picks, for every reference, the newest eligible revision. */
  lemma UpgradePicksNewest(source: Catalog, r: string, id: string, range: Range, v: Version)
    requires RefParts(r) == Ok((id, range)) && Newest(source.revisions(id), range) == Some(v)
    ensures UpgradeOne(source, r) == Ok(PinText(id, v)) && Matches(range, v)
    ensures exists i :: 0 <= i < |source.revisions(id)| && source.revisions(id)[i] == Revision(v, false)
    ensures forall i ::
        0 <= i < |source.revisions(id)| && Eligible(source.revisions(id)[i], range) ==>
          AtMost(source.revisions(id)[i].version, v)
  {
    NewestIsMaximum(source.revisions(id), range);
    var i :| 0 <= i < |source.revisions(id)| && Eligible(source.revisions(id)[i], range)
      && source.revisions(id)[i].version == v;
    assert source.revisions(id)[i] == Revision(v, false);
  }

  /** An upgraded lockfile resolves, is a fixed point of pinning, and upgrading it again reports
      no movement and changes nothing. */
  lemma UpgradingSettles(spec: ModelSpec, source: Catalog, m: map<string, string>)
    requires Published(source) && Collected(RefsOf(spec), Upgrader(source)) == Ok(m)
    ensures forall r :: r in m <==> r in RefsOf(spec)
    ensures Unresolved(RefsOf(spec), Checker(source, m)) == []
    ensures Collected(RefsOf(spec), Pinner(source, m)) == Ok(m)
    ensures Moves(RefsOf(spec), m, Upgrader(source)) == []
  {
    var refs := RefsOf(spec);
    CollectedPins(refs, Upgrader(source));
    forall r | r in refs
      ensures Checker(source, m)(r) == None && Pinner(source, m)(r) == Upgrader(source)(r)
    {
      UpgradedIsKept(source, m, r);
    }
    NoneUnresolved(refs, Checker(source, m));
    SameCollected(refs, Pinner(source, m), Upgrader(source));
    NoMoves(refs, m, Upgrader(source));
  }

  /** Every reported movement is of a reference whose pin changes, and every such reference is
      reported. */
  lemma {:induction false} MovesAreExact(refs: seq<string>, lockfile: map<string, string>,
                                         one: string -> Result<string, Reason>, r: string)
    requires forall x :: x in refs ==> one(x).Ok?
    ensures forall d :: d in Moves(refs, lockfile, one) ==>
      && d.componentRef in refs && d.componentRef in lockfile && lockfile[d.componentRef] != one(d.componentRef).value
      && d == UpgradeDiff(d.componentRef, lockfile[d.componentRef], one(d.componentRef).value)
    ensures r in refs && r in lockfile && lockfile[r] != one(r).value ==>
        UpgradeDiff(r, lockfile[r], one(r).value) in Moves(refs, lockfile, one)
  {
    if refs != [] {
      var init, last := refs[..|refs| - 1], refs[|refs| - 1];
      MovesAreExact(init, lockfile, one, r);
      assert refs == init + [last];
    }
  }
}
