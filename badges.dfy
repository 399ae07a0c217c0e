/**
 * The profile badge registry: a set of badge objects in registration order, and the list of
 * badges shown on one profile.  A badge's `shouldShow`, `getBadges` and the spread of the
 * badge with the user arguments are foreign to this model: for the profile at hand they are
 * the functions of a `Behaviour`.
 */
module Badges {
  import opened Wrappers
  import opened OrderedSets

  datatype Position = Start | End

  /** What each badge does for the profile being rendered: `shouldShow(args)` when the badge
      has one, `getBadges(args)` when it has one, `{ ...badge, ...args }`, and `position`. */
  datatype Behaviour<!B, O> = Behaviour(
    shouldShow: B -> Option<bool>,
    getBadges: B -> Option<seq<O>>,
    merged: B -> O,
    position: B -> Option<Position>)

  /** `!badge.shouldShow || badge.shouldShow(args)`. */
  predicate Shown<B, O>(beh: Behaviour<B, O>, b: B) {
    beh.shouldShow(b).None? || beh.shouldShow(b).value
  }

  predicate AtStart<B, O>(beh: Behaviour<B, O>, b: B) {
    beh.position(b) == Some(Start)
  }

  /** The entries one badge contributes: its own list, or the badge merged with the args. */
  function Contribution<B, O>(beh: Behaviour<B, O>, b: B): (r: seq<O>)
    ensures beh.getBadges(b).None? ==> r == [beh.merged(b)]
    ensures beh.getBadges(b).Some? ==> r == beh.getBadges(b).value
  {
    match beh.getBadges(b)
    case Some(list) => list
    case None => [beh.merged(b)]
  }

  /** The badge list after the loop of `_getBadges` has seen `bs`: a shown START badge's
      entries go in front, any other shown badge's at the back. */
  function Layout<B, O>(beh: Behaviour<B, O>, bs: seq<B>): seq<O>
  {
    if bs == [] then []
    else
      var x := bs[|bs| - 1];
      var rest := Layout(beh, bs[..|bs| - 1]);
      if !Shown(beh, x) then rest
      else if AtStart(beh, x) then Contribution(beh, x) + rest
      else rest + Contribution(beh, x)
  }

  /** The entries of the shown START badges, the latest registered first. */
  function StartPart<B, O>(beh: Behaviour<B, O>, bs: seq<B>): seq<O>
  {
    if bs == [] then []
    else
      var x := bs[|bs| - 1];
      var rest := StartPart(beh, bs[..|bs| - 1]);
      if Shown(beh, x) && AtStart(beh, x) then Contribution(beh, x) + rest else rest
  }

  /** The entries of the other shown badges, in registration order. */
  function EndPart<B, O>(beh: Behaviour<B, O>, bs: seq<B>): seq<O>
  {
    if bs == [] then []
    else if Shown(beh, bs[0]) && !AtStart(beh, bs[0]) then Contribution(beh, bs[0]) + EndPart(beh, bs[1..])
    else EndPart(beh, bs[1..])
  }

  /** The result of `_getBadges`: the donor badges, when there are any, before all others. */
  function ProfileBadges<B, O>(beh: Behaviour<B, O>, bs: seq<B>, donors: Option<seq<O>>): seq<O> {
    (if donors.Some? then donors.value else []) + Layout(beh, bs)
  }

  class BadgeRegistry<B(==)> {
    /** The module's `Badges` set, in insertion order. */
    var badges: seq<B>

    ghost predicate Valid()
      reads this
    {
      NoDuplicates(badges)
    }

    constructor()
      ensures Valid() && badges == []
    {
      badges := [];
    }

    /** `addProfileBadge`: a badge already registered keeps its one place. */
    method AddProfileBadge(badge: B)
      requires Valid()
      modifies this
      ensures Valid()
      ensures badges == Insert(old(badges), badge)
    {
      badges := Insert(badges, badge);
    }

    /** `removeProfileBadge`: reports whether the badge was registered. */
    method RemoveProfileBadge(badge: B) returns (removed: bool)
      requires Valid()
      modifies this
      ensures Valid()
      ensures removed <==> badge in old(badges)
      ensures badges == Without(old(badges), badge)
    {
      removed := badge in badges;
      badges := Without(badges, badge);
    }

    /** `_getBadges(args)`. */
    method GetBadges<O>(beh: Behaviour<B, O>, donors: Option<seq<O>>) returns (out: seq<O>)
      ensures out == ProfileBadges(beh, badges, donors)
    {
      out := [];
      var i := 0;
      while i < |badges|
        invariant 0 <= i <= |badges|
        invariant out == Layout(beh, badges[..i])
      {
        var badge := badges[i];
        assert badges[..i + 1][..i] == badges[..i];
        if Shown(beh, badge) {
          var b := Contribution(beh, badge);
          if AtStart(beh, badge) {
            out := b + out;
          } else {
            out := out + b;
          }
        }
        i := i + 1;
      }
      assert badges[..i] == badges;
      if donors.Some? {
        out := donors.value + out;
      }
    }
  }

  // ---------------------------------------------------------------- properties

  /** The list is the START entries, latest first, followed by the others in order. */
  lemma {:induction false} LayoutSplits<B, O>(beh: Behaviour<B, O>, bs: seq<B>)
    ensures Layout(beh, bs) == StartPart(beh, bs) + EndPart(beh, bs)
  {
    if bs != [] {
      var init := bs[..|bs| - 1];
      var x := bs[|bs| - 1];
      LayoutSplits(beh, init);
      EndPartSnoc(beh, init, x);
      assert bs == init + [x];
    }
  }

  lemma {:induction false} EndPartSnoc<B, O>(beh: Behaviour<B, O>, bs: seq<B>, x: B)
    ensures EndPart(beh, bs + [x]) == EndPart(beh, bs) + (if Shown(beh, x) && !AtStart(beh, x) then Contribution(beh, x) else [])
  {
    if bs == [] {
      assert [x][1..] == [];
    } else {
      assert (bs + [x])[0] == bs[0] && (bs + [x])[1..] == bs[1..] + [x];
      EndPartSnoc(beh, bs[1..], x);
    }
  }

  /** A START badge registered after another comes before it. */
  lemma LaterStartFirst<B, O>(beh: Behaviour<B, O>, bs: seq<B>, x: B)
    requires Shown(beh, x) && AtStart(beh, x)
    ensures Layout(beh, bs + [x]) == Contribution(beh, x) + Layout(beh, bs)
  {
    assert (bs + [x])[..|bs|] == bs;
  }

  /** Any other shown badge registered later comes after everything already there. */
  lemma LaterEndLast<B, O>(beh: Behaviour<B, O>, bs: seq<B>, x: B)
    requires Shown(beh, x) && !AtStart(beh, x)
    ensures Layout(beh, bs + [x]) == Layout(beh, bs) + Contribution(beh, x)
  {
    assert (bs + [x])[..|bs|] == bs;
  }

  /** A badge that is not shown contributes nothing. */
  lemma HiddenContributesNothing<B, O>(beh: Behaviour<B, O>, bs: seq<B>, x: B)
    requires !Shown(beh, x)
    ensures Layout(beh, bs + [x]) == Layout(beh, bs)
  {
    assert (bs + [x])[..|bs|] == bs;
  }

  /** Every listed entry comes from a shown registered badge. */
  lemma {:induction false} EntriesFromShown<B, O>(beh: Behaviour<B, O>, bs: seq<B>, o: O)
    requires o in Layout(beh, bs)
    ensures exists k :: 0 <= k < |bs| && Shown(beh, bs[k]) && o in Contribution(beh, bs[k])
  {
    var init := bs[..|bs| - 1];
    var x := bs[|bs| - 1];
    if Shown(beh, x) && o in Contribution(beh, x) {
      assert bs[|bs| - 1] == x;
    } else {
      assert o in Layout(beh, init);
      EntriesFromShown(beh, init, o);
      var k :| 0 <= k < |init| && Shown(beh, init[k]) && o in Contribution(beh, init[k]);
      assert bs[k] == init[k];
    }
  }

  /** Donor badges come before every other badge. */
  lemma DonorsFirst<B, O>(beh: Behaviour<B, O>, bs: seq<B>, donors: seq<O>)
    ensures ProfileBadges(beh, bs, Some(donors))[..|donors|] == donors
    ensures ProfileBadges(beh, bs, Some(donors))[|donors|..] == Layout(beh, bs)
    ensures ProfileBadges(beh, bs, None) == Layout(beh, bs)
  {
  }
}
