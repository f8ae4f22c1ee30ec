/** Pins, references and complaints in terms of the texts themselves. */
module LockfileLaws {
  import opened Common
  import opened Text
  import opened Semver
  import opened Contract
  import opened Lockfile
  import opened Sorting

  // ---------------------------------------------------------------- texts

  /** A text of the form id@rev, split at its last separator. */
  ghost predicate SplitsAt(s: string, id: string, rev: string) { s == id + ['@'] + rev && Without(rev, '@') }

  lemma RsplitIff(s: string, a: string, b: string)
    ensures RsplitOnce(s, '@') == Some((a, b)) <==> SplitsAt(s, a, b)
    ensures RsplitOnce(s, '@') == None <==> Without(s, '@')
  {
    RsplitSplits(s);
    if SplitsAt(s, a, b) { RsplitJoined(a, '@', b); }
    if RsplitOnce(s, '@').Some? { assert s[|RsplitOnce(s, '@').value.0|] == '@'; }
  }

  lemma {:induction false} RsplitSplits(s: string)
    ensures match RsplitOnce(s, '@') case None => Without(s, '@') case Some((a, b)) => SplitsAt(s, a, b)
    decreases |s|
  {
    if s != [] {
      var last := |s| - 1;
      RsplitSplits(s[..last]);
      assert s == s[..last] + [s[last]];
    }
  }

  /** A reference is a component, an @ and a range. */
  lemma RefPartsIff(r: string, id: string, range: Range)
    ensures RefParts(r) == Ok((id, range)) <==> exists text :: SplitsAt(r, id, text) && ParseRange(text) == Some(range)
    ensures RefParts(r) == Err(NotARef) <==> Without(r, '@')
  {
    RsplitSplits(r);
    if exists text :: SplitsAt(r, id, text) && ParseRange(text) == Some(range) {
      var text :| SplitsAt(r, id, text) && ParseRange(text) == Some(range);
      RsplitIff(r, id, text);
    }
    RsplitIff(r, [], []);
  }

  /** The three spellings of a range: a caret, a tilde, and the bare version. */
  lemma RangeSpellings(v: Version)
    ensures ParseRange(['^'] + Display(v)) == Some(Caret(v))
    ensures ParseRange(['~'] + Display(v)) == Some(Tilde(v))
    ensures ParseRange(Display(v)) == Some(Exact(v))
  {
    VersionRoundTrip(v);
    assert (['^'] + Display(v))[1..] == Display(v) && (['~'] + Display(v))[1..] == Display(v);
    DigitsFirst(v);
  }

  lemma DigitsFirst(v: Version)
    ensures Display(v) != [] && IsDigit(Display(v)[0])
  {
    DecimalRoundTrip(v.major);
    assert Display(v)[0] == Decimal(v.major)[0];
  }

  // ---------------------------------------------------------------- one reference

  /** A pin is kept exactly when it names the same component, at a version in range that the
      catalog still has. */
  lemma KeepsPinIff(source: Catalog, lockfile: map<string, string>, r: string, id: string, range: Range)
    ensures KeepsPin(source, lockfile, r, id, range) <==>
      r in lockfile && exists rev ::
        && SplitsAt(lockfile[r], id, rev) && ParseVersion(rev).Some? && Matches(range, ParseVersion(rev).value)
        && source.hasRevision(id, rev)
  {
    if r in lockfile {
      var pin := lockfile[r];
      RsplitSplits(pin);
      if exists rev ::
        && SplitsAt(pin, id, rev) && ParseVersion(rev).Some? && Matches(range, ParseVersion(rev).value)
        && source.hasRevision(id, rev)
      {
        var rev :|
          && SplitsAt(pin, id, rev) && ParseVersion(rev).Some? && Matches(range, ParseVersion(rev).value)
          && source.hasRevision(id, rev);
        RsplitIff(pin, id, rev);
      }
    }
  }

  /** The version a fresh pin names: published, not yanked, in range, and none such is newer. */
  ghost predicate NewestEligible(revisions: seq<Revision>, range: Range, v: Version) {
    && (exists i :: 0 <= i < |revisions| && !revisions[i].yanked && Matches(range, revisions[i].version)
                    && revisions[i].version == v)
    && forall i :: 0 <= i < |revisions| && !revisions[i].yanked && Matches(range, revisions[i].version) ==>
         AtMost(revisions[i].version, v)
  }

  /** Pinning keeps a pin that may be kept, character by character, and otherwise names the newest
      eligible version after the component and an @. */
  lemma PinOneIs(source: Catalog, lockfile: map<string, string>, r: string, id: string, range: Range)
    requires RefParts(r) == Ok((id, range))
    ensures KeepsPin(source, lockfile, r, id, range) ==> PinOne(source, lockfile, r) == Ok(lockfile[r])
    ensures !KeepsPin(source, lockfile, r, id, range) ==> PinOne(source, lockfile, r) == UpgradeOne(source, r)
    ensures UpgradeOne(source, r).Ok? ==> exists v ::
      NewestEligible(source.revisions(id), range, v) && UpgradeOne(source, r).value == id + ['@'] + Display(v)
    ensures UpgradeOne(source, r).Err? ==> UpgradeOne(source, r) == Err(NothingMatches(id))
    ensures UpgradeOne(source, r).Err? ==> forall i :: 0 <= i < |source.revisions(id)| ==>
      source.revisions(id)[i].yanked || !Matches(range, source.revisions(id)[i].version)
  {
    NewestIsMaximum(source.revisions(id), range);
    if UpgradeOne(source, r).Ok? {
      var v := Newest(source.revisions(id), range).value;
      assert NewestEligible(source.revisions(id), range, v);
    }
  }

  // ---------------------------------------------------------------- resolving

  /** What is to be complained about a reference: no pin, a pin without an @, or a pin that the
      catalog does not have. */
  ghost predicate Complaint(source: Catalog, lockfile: map<string, string>, r: string, reason: Reason) {
    if r !in lockfile then reason == MissingPin
    else if Without(lockfile[r], '@') then reason == BadPin(lockfile[r])
    else
      && reason == NotInCatalog(lockfile[r])
      && forall id, rev :: SplitsAt(lockfile[r], id, rev) ==> !source.hasRevision(id, rev)
  }

  lemma CheckIff(source: Catalog, lockfile: map<string, string>, r: string, reason: Reason)
    ensures CheckOne(source, lockfile, r) == Some(reason) <==> Complaint(source, lockfile, r, reason)
  {
    if r in lockfile {
      var pin := lockfile[r];
      RsplitSplits(pin);
      RsplitIff(pin, [], []);
      forall id, rev | SplitsAt(pin, id, rev) ensures RsplitOnce(pin, '@') == Some((id, rev)) {
        RsplitIff(pin, id, rev);
      }
    }
  }

  lemma {:induction false} UnresolvedIff(refs: seq<string>, check: string -> Option<Reason>, e: ResolveError)
    ensures e in Unresolved(refs, check) <==> e.componentRef in refs && check(e.componentRef) == Some(e.reason)
    decreases |refs|
  {
    if refs != [] {
      UnresolvedIff(refs[..|refs| - 1], check, e);
      assert refs == refs[..|refs| - 1] + [refs[|refs| - 1]];
    }
  }

  /** The references of the complaints, in the order of the references. */
  function Failing(check: string -> Option<Reason>): string -> bool { (r: string) => check(r).Some? }

  lemma {:induction false} UnresolvedInOrder(refs: seq<string>, check: string -> Option<Reason>)
    ensures |Unresolved(refs, check)| == |Filter(refs, Failing(check))|
    ensures forall i :: 0 <= i < |Unresolved(refs, check)| ==>
      Unresolved(refs, check)[i].componentRef == Filter(refs, Failing(check))[i]
    decreases |refs|
  {
    if refs != [] { UnresolvedInOrder(refs[..|refs| - 1], check); }
  }

  /** Resolving lists exactly the references with a complaint, each with its reason. */
  lemma ResolveLists(spec: ModelSpec, source: Catalog, r: string, reason: Reason)
    ensures ResolveError(r, reason) in Unresolved(RefsOf(spec), Checker(source, spec.lockfile)) <==>
      r in RefsOf(spec) && Complaint(source, spec.lockfile, r, reason)
  {
    UnresolvedIff(RefsOf(spec), Checker(source, spec.lockfile), ResolveError(r, reason));
    CheckIff(source, spec.lockfile, r, reason);
  }

  /** A failed pinning lists exactly the references that cannot be pinned, each with its reason. */
  lemma {:induction false} ErrorsIff(refs: seq<string>, one: string -> Result<string, Reason>, e: ResolveError)
    ensures e in Errors(refs, one) <==> e.componentRef in refs && one(e.componentRef) == Err(e.reason)
    decreases |refs|
  {
    if refs != [] {
      ErrorsIff(refs[..|refs| - 1], one, e);
      assert refs == refs[..|refs| - 1] + [refs[|refs| - 1]];
    }
  }

  // ---------------------------------------------------------------- the references of a contract

  /** A slot refers to what its equipped variant refers to. */
  predicate SlotRefersTo(slot: Slot, r: string) {
    Equipped(slot).Some? && slot.variants[Equipped(slot).value].componentRef == Some(r)
  }

  lemma SlotRefIff(slot: Slot, r: string)
    ensures r in Present(SlotRef(slot)) <==> SlotRefersTo(slot, r)
  {
  }

  lemma {:induction false} SlotRefsIff(slots: seq<Slot>, r: string)
    ensures r in SlotRefs(slots) <==> exists slot :: slot in slots && SlotRefersTo(slot, r)
    decreases |slots|
  {
    if slots != [] {
      var init, last := slots[..|slots| - 1], slots[|slots| - 1];
      SlotRefsIff(init, r);
      SlotRefIff(last, r);
      assert forall slot :: slot in slots <==> slot in init || slot == last by { assert slots == init + [last]; }
    }
  }

  lemma {:induction false} MotorRefsIff(motors: seq<Option<string>>, r: string)
    ensures r in MotorRefs(motors) <==> Some(r) in motors
    decreases |motors|
  {
    if motors != [] {
      MotorRefsIff(motors[..|motors| - 1], r);
      assert motors == motors[..|motors| - 1] + [motors[|motors| - 1]];
    }
  }

  /** The references of a contract: those of the equipped variants first, then those of the motors. */
  lemma RefsAre(spec: ModelSpec, r: string)
    ensures RefsOf(spec) == SlotRefs(spec.slots) + MotorRefs(spec.motors)
    ensures r in RefsOf(spec) <==>
      (exists slot :: slot in spec.slots && SlotRefersTo(slot, r)) || Some(r) in spec.motors
  {
    SlotRefsIff(spec.slots, r);
    MotorRefsIff(spec.motors, r);
  }
}
