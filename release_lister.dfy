/**
 * The release lister: one pass over the newest-first list of release tags
 * that picks a tag for each of the alpha, beta and stable channels by the
 * number of dot-separated segments of the tag.
 *
 * A slot is `None` until something is written into it. The source tests its
 * slots with Python truthiness (`if not stable`), so a slot holding the empty
 * tag still counts as unset and is overwritten by the next entry.
 */
module ReleaseLister {

  import opened Wrappers
  import opened Tags

  datatype Channel = Alpha | Beta | Stable

  /** The three slots the lister returns, as `(alpha, beta, stable)`. */
  datatype Selection = Selection(alpha: Option<string>, beta: Option<string>, stable: Option<string>)

  /** Python truthiness of a slot: set, and to a non-empty tag. */
  predicate Truthy(slot: Option<string>)
    ensures slot.None? ==> !Truthy(slot)
    ensures slot == Some("") ==> !Truthy(slot)
    ensures slot.Some? && slot.value != "" ==> Truthy(slot)
  {
    slot.Some? && slot.value != ""
  }

  /**
   * Whether writing `tag` into an unset slot of channel `ch` leaves the slot
   * set: stable takes 3-segment tags, beta 3- or 4-segment tags, and alpha
   * takes every tag but stays unset for the empty one.
   */
  predicate Settles(tag: string, ch: Channel)
  {
    match ch
    case Stable => SegCount(tag) == 3
    case Beta => SegCount(tag) == 3 || SegCount(tag) == 4
    case Alpha => tag != ""
  }

  /** The index of the first tag in list order that settles channel `ch`. */
  function FirstMatch(tags: seq<string>, ch: Channel): (r: Option<nat>)
    ensures r.Some? ==> r.value < |tags| && Settles(tags[r.value], ch)
    ensures r.Some? ==> forall j :: 0 <= j < r.value ==> !Settles(tags[j], ch)
    ensures r.None? ==> forall j :: 0 <= j < |tags| ==> !Settles(tags[j], ch)
  {
    if tags == [] then None
    else if Settles(tags[0], ch) then Some(0)
    else match FirstMatch(tags[1..], ch)
      case None => None
      case Some(k) => Some(k + 1)
  }

  /**
   * What a channel's slot holds after scanning `tags`: the first tag that
   * settles it; for alpha, which every entry writes while it is unset, the
   * empty tag when no entry settles it but some entry was seen.
   */
  function Chosen(tags: seq<string>, ch: Channel): Option<string>
  {
    match FirstMatch(tags, ch)
    case Some(k) => Some(tags[k])
    case None => if ch == Alpha && tags != [] then Some("") else None
  }

  /** The declarative selection: each channel's first settling tag. */
  function Select(tags: seq<string>): Selection
  {
    Selection(Chosen(tags, Alpha), Chosen(tags, Beta), Chosen(tags, Stable))
  }

  /** One iteration of the loop body on one tag, without the `break` test. */
  function Step(sel: Selection, tag: string): (r: Selection)
    ensures Truthy(sel.alpha) ==> r.alpha == sel.alpha
    ensures Truthy(sel.beta) ==> r.beta == sel.beta
    ensures Truthy(sel.stable) ==> r.stable == sel.stable
    ensures !Truthy(sel.alpha) ==> r.alpha == Some(tag)
    ensures !Truthy(sel.beta) ==> r.beta == if SegCount(tag) in {3, 4} then Some(tag) else sel.beta
    ensures !Truthy(sel.stable) ==> r.stable == if SegCount(tag) == 3 then Some(tag) else sel.stable
  {
    var n := SegCount(tag);
    if n == 3 then
      Selection(if Truthy(sel.alpha) then sel.alpha else Some(tag),
                if Truthy(sel.beta) then sel.beta else Some(tag),
                if Truthy(sel.stable) then sel.stable else Some(tag))
    else if n == 4 then
      Selection(if Truthy(sel.alpha) then sel.alpha else Some(tag),
                if Truthy(sel.beta) then sel.beta else Some(tag),
                sel.stable)
    else
      Selection(if Truthy(sel.alpha) then sel.alpha else Some(tag), sel.beta, sel.stable)
  }

  /** The loop run over the whole list with no early exit. */
  function FullScan(tags: seq<string>): Selection
    decreases |tags|
  {
    if tags == [] then Selection(None, None, None)
    else Step(FullScan(tags[..|tags| - 1]), tags[|tags| - 1])
  }

  /** A stable-shaped tag is beta-shaped, and a beta-shaped tag is not empty. */
  lemma SettlesNested(tag: string)
    ensures Settles(tag, Stable) ==> Settles(tag, Beta)
    ensures Settles(tag, Beta) ==> Settles(tag, Alpha)
  {
    if tag == "" {
      assert Count(tag, '.') == 0;
    }
  }

  /** Appending a tag keeps an earlier first match and otherwise may add the new tag. */
  lemma {:induction false} FirstMatchSnoc(s: seq<string>, t: string, ch: Channel)
    ensures FirstMatch(s + [t], ch) ==
      if FirstMatch(s, ch).Some? then FirstMatch(s, ch)
      else if Settles(t, ch) then Some(|s|) else None
    decreases |s|
  {
    if s == [] {
      assert s + [t] == [t];
      assert [t][1..] == [];
    } else {
      assert (s + [t])[0] == s[0];
      assert (s + [t])[1..] == s[1..] + [t];
      FirstMatchSnoc(s[1..], t, ch);
    }
  }

  /** Once a channel has a match in a prefix, the rest of the list does not change it. */
  lemma {:induction false} FirstMatchPrefix(s: seq<string>, rest: seq<string>, ch: Channel)
    requires FirstMatch(s, ch).Some?
    ensures FirstMatch(s + rest, ch) == FirstMatch(s, ch)
    decreases |s|
  {
    assert (s + rest)[0] == s[0];
    if !Settles(s[0], ch) {
      assert (s + rest)[1..] == s[1..] + rest;
      FirstMatchPrefix(s[1..], rest, ch);
    }
  }

  /** The loop body advances the declarative selection by one tag. */
  lemma StepSelect(s: seq<string>, t: string)
    ensures Step(Select(s), t) == Select(s + [t])
  {
    FirstMatchSnoc(s, t, Alpha);
    FirstMatchSnoc(s, t, Beta);
    FirstMatchSnoc(s, t, Stable);
    SettlesNested(t);
    var sel := Select(s);
    assert Truthy(sel.stable) <==> FirstMatch(s, Stable).Some? by { SettlesStableBeta(s); }
    assert Truthy(sel.beta) <==> FirstMatch(s, Beta).Some? by { SettlesStableBeta(s); }
    assert Truthy(sel.alpha) <==> FirstMatch(s, Alpha).Some?;
  }

  /** A stable or beta slot is set exactly when it holds a (non-empty) match. */
  lemma SettlesStableBeta(s: seq<string>)
    ensures Truthy(Chosen(s, Stable)) <==> FirstMatch(s, Stable).Some?
    ensures Truthy(Chosen(s, Beta)) <==> FirstMatch(s, Beta).Some?
  {
    var r := FirstMatch(s, Stable);
    if r.Some? { SettlesNested(s[r.value]); }
    var q := FirstMatch(s, Beta);
    if q.Some? { SettlesNested(s[q.value]); }
  }

  /** Scanning the whole list without stopping gives the declarative selection. */
  lemma {:induction false} FullScanIsSelect(tags: seq<string>)
    ensures FullScan(tags) == Select(tags)
    decreases |tags|
  {
    if tags != [] {
      var init := tags[..|tags| - 1];
      FullScanIsSelect(init);
      StepSelect(init, tags[|tags| - 1]);
      assert init + [tags[|tags| - 1]] == tags;
    }
  }

  /**
   * All three slots are set exactly when a stable-shaped tag has been seen,
   * so the loop breaks right after the first 3-segment tag.
   */
  lemma AllSetIffStableSeen(s: seq<string>)
    ensures Truthy(Chosen(s, Alpha)) && Truthy(Chosen(s, Beta)) && Truthy(Chosen(s, Stable))
        <==> FirstMatch(s, Stable).Some?
  {
    SettlesStableBeta(s);
    var r := FirstMatch(s, Stable);
    if r.Some? {
      SettlesNested(s[r.value]);
    }
    var q := FirstMatch(s, Beta);
    if q.Some? {
      SettlesNested(s[q.value]);
    }
  }

  /** The release list scan of the source, with its early exit once every slot is set. */
  method GetReleaseInfo(tags: seq<string>)
    returns (alpha: Option<string>, beta: Option<string>, stable: Option<string>, ghost scanned: nat)
    ensures Selection(alpha, beta, stable) == Select(tags)
    ensures scanned == if FirstMatch(tags, Stable).Some? then FirstMatch(tags, Stable).value + 1 else |tags|
  {
    alpha, beta, stable := None, None, None;
    var i := 0;
    while i < |tags|
      invariant 0 <= i <= |tags|
      invariant Selection(alpha, beta, stable) == Select(tags[..i])
      invariant FirstMatch(tags[..i], Stable).None?
    {
      var tag := tags[i];
      var seg := Split(tag, '.');
      if |seg| == 3 {
        if !Truthy(stable) { stable := Some(tag); }
        if !Truthy(beta) { beta := Some(tag); }
        if !Truthy(alpha) { alpha := Some(tag); }
      } else if |seg| == 4 {
        if !Truthy(beta) { beta := Some(tag); }
        if !Truthy(alpha) { alpha := Some(tag); }
      } else {
        if !Truthy(alpha) { alpha := Some(tag); }
      }
      StepSelect(tags[..i], tag);
      assert tags[..i] + [tag] == tags[..i + 1];
      FirstMatchSnoc(tags[..i], tag, Stable);
      i := i + 1;
      AllSetIffStableSeen(tags[..i]);
      if Truthy(stable) && Truthy(beta) && Truthy(alpha) {
        SettlesStableBeta(tags[..i]);
        assert tags[..i] + tags[i..] == tags;
        FirstMatchPrefix(tags[..i], tags[i..], Alpha);
        FirstMatchPrefix(tags[..i], tags[i..], Beta);
        FirstMatchPrefix(tags[..i], tags[i..], Stable);
        break;
      }
    }
    if i == |tags| {
      assert tags[..i] == tags;
    }
    scanned := i;
  }

  /** An empty list selects nothing; otherwise a non-empty newest tag is the alpha. */
  lemma AlphaIsNewest(tags: seq<string>)
    ensures tags == [] ==> Select(tags) == Selection(None, None, None)
    ensures tags != [] && tags[0] != "" ==> Select(tags).alpha == Some(tags[0])
  {
  }

  /** The stable slot holds the first 3-segment tag in list order, and is unset when there is none. */
  lemma StableIsFirstThreeSegment(tags: seq<string>)
    ensures Select(tags).stable.None? <==> forall k :: 0 <= k < |tags| ==> SegCount(tags[k]) != 3
    ensures Select(tags).stable.Some? ==>
      exists k :: 0 <= k < |tags| && tags[k] == Select(tags).stable.value && SegCount(tags[k]) == 3 &&
        forall j :: 0 <= j < k ==> SegCount(tags[j]) != 3
  {
  }

  /** The beta slot holds the first 3- or 4-segment tag in list order, and is unset when there is none. */
  lemma BetaIsFirstThreeOrFourSegment(tags: seq<string>)
    ensures Select(tags).beta.None? <==> forall k :: 0 <= k < |tags| ==> SegCount(tags[k]) !in {3, 4}
    ensures Select(tags).beta.Some? ==>
      exists k :: 0 <= k < |tags| && tags[k] == Select(tags).beta.value && SegCount(tags[k]) in {3, 4} &&
        forall j :: 0 <= j < k ==> SegCount(tags[j]) !in {3, 4}
  {
  }

  /**
   * Every set slot is a tag of the list, and the alpha is no older than the
   * beta, which is no older than the stable.
   */
  lemma SlotsOrdered(tags: seq<string>)
    ensures var sel := Select(tags);
      (sel.alpha.Some? ==> sel.alpha.value in tags) &&
      (sel.beta.Some? ==> sel.beta.value in tags) &&
      (sel.stable.Some? ==> sel.stable.value in tags)
    ensures FirstMatch(tags, Stable).Some? ==>
      FirstMatch(tags, Beta).Some? && FirstMatch(tags, Beta).value <= FirstMatch(tags, Stable).value
    ensures FirstMatch(tags, Beta).Some? ==>
      FirstMatch(tags, Alpha).Some? && FirstMatch(tags, Alpha).value <= FirstMatch(tags, Beta).value
  {
    var r := FirstMatch(tags, Stable);
    if r.Some? {
      SettlesNested(tags[r.value]);
    }
    var q := FirstMatch(tags, Beta);
    if q.Some? {
      SettlesNested(tags[q.value]);
    }
    if FirstMatch(tags, Alpha).None? && tags != [] {
      assert tags[|tags| - 1] == "";
    }
  }

  /** The selection for three newest tags of 4, 3 and 5 segments: beta and alpha take the first, stable the second. */
  lemma FirstSeenWins()
    ensures Select(["v5.0.0-beta.1", "v4.9.0", "v5.0.0-alpha.1.g7e2"]) ==
      Selection(Some("v5.0.0-beta.1"), Some("v5.0.0-beta.1"), Some("v4.9.0"))
  {
    SegCountOfJoin(["v5", "0", "0-beta", "1"]);
    assert Join(["v5", "0", "0-beta", "1"], '.') == "v5.0.0-beta.1";
    SegCountOfJoin(["v4", "9", "0"]);
    assert Join(["v4", "9", "0"], '.') == "v4.9.0";
  }
}
