/**
 * The message popover button registry: a `Map` from identifier to button factory, iterated in
 * insertion order, and the list of buttons built for one message.  Calling a factory on the
 * message is foreign to this model: its outcome for the message at hand is the function
 * `run`.
 */
module MessagePopover {
  import opened Wrappers
  import opened OrderedSets

  /** What calling a factory on the message does: it throws, returns nothing (`null`), or
      returns an item with an optional `key`. */
  datatype FactoryOutcome<I> = Threw | NoItem | Item(key: Option<string>, item: I)

  /** A built button: its key and the item it renders. */
  datatype Button<I> = Button(key: string, item: I)

  /** The buttons built from `ids`, in order: a factory that throws or returns nothing adds
      nothing, and an item without a key gets its identifier as key. */
  function Built<F, I>(ids: seq<string>, factories: map<string, F>, run: F -> FactoryOutcome<I>): seq<Button<I>>
    requires forall k :: 0 <= k < |ids| ==> ids[k] in factories
  {
    if ids == [] then []
    else
      var id := ids[|ids| - 1];
      var rest := Built(ids[..|ids| - 1], factories, run);
      match run(factories[id])
      case Item(key, item) => rest + [Button(if key.Some? then key.value else id, item)]
      case _ => rest
  }

  class PopoverButtons<F> {
    /** The keys of `buttons`, in insertion order. */
    var order: seq<string>
    /** `buttons`. */
    var factories: map<string, F>

    ghost predicate Valid()
      reads this
    {
      NoDuplicates(order) && (forall k :: 0 <= k < |order| ==> order[k] in factories)
      && (forall id :: id in factories ==> id in order)
    }

    constructor()
      ensures Valid() && order == [] && factories == map[]
    {
      order := [];
      factories := map[];
    }

    /** `addMessagePopoverButton`: a new identifier goes last; an existing one keeps its place
        and gets the new factory. */
    method AddMessagePopoverButton(identifier: string, item: F)
      requires Valid()
      modifies this
      ensures Valid()
      ensures order == Insert(old(order), identifier)
      ensures factories == old(factories)[identifier := item]
    {
      order := Insert(order, identifier);
      factories := factories[identifier := item];
    }

    /** `removeMessagePopoverButton`. */
    method RemoveMessagePopoverButton(identifier: string)
      requires Valid()
      modifies this
      ensures Valid()
      ensures order == Without(old(order), identifier)
      ensures factories == old(factories) - {identifier}
    {
      order := Without(order, identifier);
      factories := factories - {identifier};
    }

    /** `_buildPopoverElements`, the list of items it renders. */
    method BuildPopoverElements<I>(run: F -> FactoryOutcome<I>) returns (items: seq<Button<I>>)
      requires Valid()
      ensures items == Built(order, factories, run)
    {
      items := [];
      var i := 0;
      while i < |order|
        invariant 0 <= i <= |order|
        invariant items == Built(order[..i], factories, run)
      {
        var identifier := order[i];
        assert order[..i + 1][..i] == order[..i];
        var outcome := run(factories[identifier]);
        match outcome {
          case Item(key, item) =>
            var k := if key.Some? then key.value else identifier;
            items := items + [Button(k, item)];
          case _ =>
        }
        i := i + 1;
      }
      assert order[..i] == order;
    }
  }

  // ---------------------------------------------------------------- properties

  /** Replacing a factory keeps every other entry and the order. */
  lemma ReplaceKeepsOthers<F>(order: seq<string>, factories: map<string, F>, identifier: string, item: F)
    requires identifier in order
    ensures Insert(order, identifier) == order
    ensures forall id :: id in factories && id != identifier ==> factories[identifier := item][id] == factories[id]
  {
  }

  /** A factory that throws or returns nothing adds no button and does not stop the later ones. */
  lemma SkippedAddsNothing<F, I>(ids: seq<string>, id: string, factories: map<string, F>, run: F -> FactoryOutcome<I>)
    requires forall k :: 0 <= k < |ids| ==> ids[k] in factories
    requires id in factories && !run(factories[id]).Item?
    ensures Built(ids + [id], factories, run) == Built(ids, factories, run)
  {
    assert (ids + [id])[..|ids|] == ids;
  }

  /** Each built button belongs to a registered identifier whose factory returned its item;
      its key is the item's own key, or the identifier when the item has none. */
  lemma {:induction false} ButtonsFromFactories<F, I>(ids: seq<string>, factories: map<string, F>, run: F -> FactoryOutcome<I>, j: nat)
    requires forall k :: 0 <= k < |ids| ==> ids[k] in factories
    requires j < |Built(ids, factories, run)|
    ensures exists k :: (0 <= k < |ids| && run(factories[ids[k]]).Item?
      && Built(ids, factories, run)[j].item == run(factories[ids[k]]).item
      && Built(ids, factories, run)[j].key == (if run(factories[ids[k]]).key.Some? then run(factories[ids[k]]).key.value else ids[k]))
  {
    var init := ids[..|ids| - 1];
    var id := ids[|ids| - 1];
    var rest := Built(init, factories, run);
    if j < |rest| {
      assert Built(ids, factories, run)[j] == rest[j];
      ButtonsFromFactories(init, factories, run, j);
      var k :| 0 <= k < |init| && run(factories[init[k]]).Item?
        && rest[j].item == run(factories[init[k]]).item
        && rest[j].key == (if run(factories[init[k]]).key.Some? then run(factories[init[k]]).key.value else init[k]);
      assert ids[k] == init[k];
    } else {
      assert ids[|ids| - 1] == id;
    }
  }

  /** At most one button per factory. */
  lemma {:induction false} AtMostOnePerFactory<F, I>(ids: seq<string>, factories: map<string, F>, run: F -> FactoryOutcome<I>)
    requires forall k :: 0 <= k < |ids| ==> ids[k] in factories
    ensures |Built(ids, factories, run)| <= |ids|
  {
    if ids != [] {
      AtMostOnePerFactory(ids[..|ids| - 1], factories, run);
    }
  }
}
