/** The list of profiles and what its operations compute. */
module ProfileData {
  import opened Options
  import opened Reconcile

  /** The auxiliary profiles that a profile refers to. */
  datatype PrfOption = PrfOption(
    merge: Option<string>,
    script: Option<string>,
    rules: Option<string>,
    proxies: Option<string>,
    groups: Option<string>)

  datatype Item = Item(
    uid: Option<string>,
    itype: Option<string>,
    file: Option<string>,
    selected: Option<seq<Selected>>,
    option: Option<PrfOption>,
    fileData: Option<string>)

  datatype Profiles = Profiles(current: Option<string>, items: Option<seq<Item>>)

  function Items(p: Profiles): seq<Item> {
    if p.items.Some? then p.items.value else []
  }

  /** The position of the first item with this uid, or the length of the list. */
  function First(items: seq<Item>, uid: Option<string>): (i: nat)
    ensures i <= |items|
    ensures i < |items| ==> items[i].uid == uid
    ensures forall k :: 0 <= k < i ==> items[k].uid != uid
  {
    if items == [] || items[0].uid == uid then 0 else 1 + First(items[1..], uid)
  }

  predicate Has(items: seq<Item>, uid: Option<string>) {
    First(items, uid) < |items|
  }

  /** One past the position of the last item with this uid, or zero. */
  function AfterLast(items: seq<Item>, uid: Option<string>): (i: nat)
    ensures i <= |items|
    ensures i > 0 ==> items[i - 1].uid == uid
    ensures forall k :: i <= k < |items| ==> items[k].uid != uid
  {
    if items == [] then 0
    else if items[|items| - 1].uid == uid then |items|
    else AfterLast(items[..|items| - 1], uid)
  }

  lemma LastIff(items: seq<Item>, uid: Option<string>)
    ensures AfterLast(items, uid) > 0 <==> Has(items, uid)
  {
    assert forall k :: 0 <= k < |items| && items[k].uid == uid ==> Has(items, uid) && AfterLast(items, uid) > 0;
  }

  function RemoveAt<T>(s: seq<T>, i: nat): seq<T>
    requires i < |s|
  {
    s[..i] + s[i + 1..]
  }

  function InsertAt<T>(s: seq<T>, i: nat, x: T): seq<T>
    requires i <= |s|
  {
    s[..i] + [x] + s[i..]
  }

  function Move<T>(s: seq<T>, i: nat, j: nat): seq<T>
    requires i < |s| && j < |s|
  {
    InsertAt(RemoveAt(s, i), j, s[i])
  }

  predicate Launchable(item: Item) {
    item.itype == Some("remote") || item.itype == Some("local")
  }

  /** Only `current` is taken from a patch, and only when it names an item. */
  function PatchConfig(p: Profiles, current: Option<string>): Profiles {
    var items := Items(p);
    Profiles(if current.Some? && Has(items, current) then current else p.current, Some(items))
  }

  datatype AppendError = NullUid | NullFile | WriteFailed

  function Appended(p: Profiles, item: Item): Profiles {
    Profiles(
      if p.current.None? && Launchable(item) then item.uid else p.current,
      Some(Items(p) + [item.(fileData := None)]))
  }

  /** Moves an item to the position of another one; an unknown uid changes nothing. */
  function Reordered(p: Profiles, active: string, over: string): Profiles {
    var items := Items(p);
    var i, j := AfterLast(items, Some(active)), AfterLast(items, Some(over));
    if i == 0 || j == 0 then p else p.(items := Some(Move(items, i - 1, j - 1)))
  }

  function Or<T>(o: Option<T>, default: Option<T>): Option<T> {
    if o.Some? then o else default
  }

  /** The fields that a patch carries replace those of the item. */
  function Patched(item: Item, patch: Item): Item {
    item.(itype := Or(patch.itype, item.itype), file := Or(patch.file, item.file),
          selected := Or(patch.selected, item.selected), option := Or(patch.option, item.option))
  }

  function MergedOption(one: Option<PrfOption>, other: Option<PrfOption>): Option<PrfOption> {
    if one.None? || other.None? then Or(one, other)
    else
      var a, b := one.value, other.value;
      Some(PrfOption(Or(b.merge, a.merge), Or(b.script, a.script), Or(b.rules, a.rules),
                     Or(b.proxies, a.proxies), Or(b.groups, a.groups)))
  }

  /** A refresh merges the options, and names a file when it brings data for an item without one. */
  function Refreshed(item: Item, update: Item, uid: string): Item {
    var named := item.(option := MergedOption(item.option, update.option));
    if update.fileData.None? then named else named.(file := Or(item.file, Or(update.file, Some(uid + ".yaml"))))
  }

  /** The list with the item at k replaced. */
  function Replaced(p: Profiles, k: nat, item: Item): Profiles
    requires k < |Items(p)|
  {
    p.(items := Some(Items(p)[k := item]))
  }

  function References(item: Item): seq<Option<string>> {
    if item.option.None? then []
    else
      var o := item.option.value;
      [o.merge, o.script, o.rules, o.proxies, o.groups]
  }

  /** Takes the items with the given uids out of the list, one after the other. */
  function TakeAll(items: seq<Item>, uids: seq<Option<string>>): seq<Item> {
    if uids == [] then items
    else
      var rest := TakeAll(items, uids[..|uids| - 1]);
      var k := First(rest, uids[|uids| - 1]);
      if k < |rest| then RemoveAt(rest, k) else rest
  }

  /** The files of the items taken, in the order they are taken. */
  function TakenFiles(items: seq<Item>, uids: seq<Option<string>>): seq<string> {
    if uids == [] then []
    else
      var rest := TakeAll(items, uids[..|uids| - 1]);
      var k := First(rest, uids[|uids| - 1]);
      TakenFiles(items, uids[..|uids| - 1]) + if k < |rest| then Listed(rest[k].file) else []
  }

  function FirstLaunchable(items: seq<Item>): Option<string> {
    if items == [] then None
    else if Launchable(items[0]) then items[0].uid
    else FirstLaunchable(items[1..])
  }

  /** What loading a new configuration into the core came to. */
  datatype Outcome = Accepted | Rejected | Failed

  predicate DeletesCurrent(p: Profiles, uid: string) {
    p.current.None? || p.current == Some(uid)
  }

  /** The uid to delete and those it refers to, in the order they are taken out. */
  function Doomed(p: Profiles, uid: string): seq<Option<string>>
    requires Has(Items(p), Some(uid))
  {
    [Some(uid)] + References(Items(p)[First(Items(p), Some(uid))])
  }

  function Deleted(p: Profiles, uid: string): Profiles
    requires Has(Items(p), Some(uid))
  {
    var items := TakeAll(Items(p), Doomed(p, uid));
    Profiles(if DeletesCurrent(p, uid) then FirstLaunchable(items) else p.current, Some(items))
  }
}

/** The profile list as the object that the operations update. */
module ProfileList {
  import opened Options
  import opened ProfileData

  class IProfiles {
    var current: Option<string>
    var items: Option<seq<Item>>

    function View(): Profiles
      reads this
    {
      Profiles(current, items)
    }

    constructor (current: Option<string>, items: Option<seq<Item>>)
      ensures View() == Profiles(current, items)
    {
      this.current, this.items := current, items;
    }

    static method Position(items: seq<Item>, uid: Option<string>) returns (i: nat)
      ensures i == First(items, uid)
    {
      i := 0;
      while i < |items| && items[i].uid != uid
        invariant i <= |items| && First(items, uid) == i + First(items[i..], uid)
      {
        i := i + 1;
      }
    }

    /** One past the last position, as the scan from the end finds it. */
    static method LastPosition(items: seq<Item>, uid: Option<string>) returns (i: nat)
      ensures i == AfterLast(items, uid)
    {
      i := |items|;
      while i > 0 && items[i - 1].uid != uid
        invariant i <= |items| && AfterLast(items, uid) == AfterLast(items[..i], uid)
      {
        assert items[..i][..i - 1] == items[..i - 1];
        i := i - 1;
      }
    }

    method PatchConfig(patch: Option<string>)
      modifies this
      ensures View() == ProfileData.PatchConfig(old(View()), patch)
      ensures items == Some(Items(old(View())))
      ensures current == if patch.Some? && (exists x :: x in Items(old(View())) && x.uid == patch) then patch
                         else old(current)
    {
      if items.None? {
        items := Some([]);
      }
      if patch.Some? {
        var i := Position(items.value, patch);
        if i < |items.value| {
          current := patch;
        }
      }
    }

    /** `written` is the outcome of writing the file data. */
    method AppendItem(item: Item, written: bool) returns (error: Option<AppendError>)
      modifies this
      ensures error == (if item.uid.None? then Some(NullUid)
                        else if item.fileData.Some? && item.file.None? then Some(NullFile)
                        else if item.fileData.Some? && !written then Some(WriteFailed)
                        else None)
      ensures View() == if error.Some? then old(View()) else Appended(old(View()), item)
      ensures error.None? ==> items == Some(Items(old(View())) + [item.(fileData := None)])
      ensures error.None? ==>
                current == if old(current).None? && (item.itype == Some("remote") || item.itype == Some("local"))
                           then item.uid else old(current)
    {
      if item.uid.None? {
        return Some(NullUid);
      }
      if item.fileData.Some? {
        if item.file.None? {
          return Some(NullFile);
        }
        if !written {
          return Some(WriteFailed);
        }
      }
      if current.None? && Launchable(item) {
        current := item.uid;
      }
      if items.None? {
        items := Some([]);
      }
      items := Some(items.value + [item.(fileData := None)]);
      return None;
    }

    /** `saved` is the outcome of saving the list, which a move is followed by. */
    method Reorder(active: string, over: string, saved: bool) returns (ok: bool)
      modifies this
      ensures View() == Reordered(old(View()), active, over)
      ensures ok <==> saved || !Has(Items(old(View())), Some(active)) || !Has(Items(old(View())), Some(over))
    {
      LastIff(Items(View()), Some(active));
      LastIff(Items(View()), Some(over));
      if items.None? {
        return true;
      }
      var list := items.value;
      var i := LastPosition(list, Some(active));
      var j := LastPosition(list, Some(over));
      if i == 0 || j == 0 {
        return true;
      }
      var item := list[i - 1];
      list := RemoveAt(list, i - 1);
      list := InsertAt(list, j - 1, item);
      items := Some(list);
      return saved;
    }

    /** `valid` says that a patched file name is one, and `saved` is the outcome of saving the list. */
    method PatchItem(uid: string, patch: Item, valid: bool, saved: bool) returns (ok: bool)
      modifies this
      ensures ok <==> (patch.file.None? || valid) && Has(Items(old(View())), Some(uid)) && saved
      ensures current == old(current)
      ensures patch.file.Some? && !valid ==> items == old(items)
      ensures patch.file.None? || valid ==>
                Items(View()) == (var list := Items(old(View()));
                                  var k := First(list, Some(uid));
                                  if k < |list| then list[k := Patched(list[k], patch)] else list)
    {
      if patch.file.Some? && !valid {
        return false;
      }
      var list := if items.Some? then items.value else [];
      var k := Position(list, Some(uid));
      if k == |list| {
        items := Some(list);
        return false;
      }
      items := Some(list[k := Patched(list[k], patch)]);
      return saved;
    }

    /** `written` is the outcome of writing the file data. */
    method UpdateItem(uid: string, update: Item, written: bool, saved: bool) returns (ok: bool)
      modifies this
      ensures ok <==> Has(Items(old(View())), Some(uid)) && (update.fileData.None? || written) && saved
      ensures current == old(current)
      ensures Items(View()) == (var list := Items(old(View()));
                                var k := First(list, Some(uid));
                                if k < |list| then list[k := Refreshed(list[k], update, uid)] else list)
    {
      if items.None? {
        items := Some([]);
      }
      var k := Position(items.value, Some(uid));
      if k == |items.value| {
        return false;
      }
      items := Some(items.value[k := Refreshed(items.value[k], update, uid)]);
      return (update.fileData.None? || written) && saved;
    }

    static method TakeItemFileByUid(items: seq<Item>, uid: Option<string>)
      returns (rest: seq<Item>, file: Option<string>)
      ensures rest == if Has(items, uid) then RemoveAt(items, First(items, uid)) else items
      ensures file == if Has(items, uid) then items[First(items, uid)].file else None
    {
      var i := Position(items, uid);
      if i < |items| {
        rest, file := RemoveAt(items, i), items[i].file;
      } else {
        rest, file := items, None;
      }
    }

    /** Takes the items out one by one and collects their files. */
    static method TakeItems(items: seq<Item>, doomed: seq<Option<string>>)
      returns (rest: seq<Item>, files: seq<string>)
      ensures rest == TakeAll(items, doomed) && files == TakenFiles(items, doomed)
    {
      rest, files := items, [];
      for k := 0 to |doomed|
        invariant rest == TakeAll(items, doomed[..k])
        invariant files == TakenFiles(items, doomed[..k])
      {
        assert doomed[..k + 1][..k] == doomed[..k];
        var file;
        rest, file := TakeItemFileByUid(rest, doomed[k]);
        if file.Some? {
          files := files + [file.value];
        }
      }
      assert doomed[..|doomed|] == doomed;
    }

    static method PickCurrent(items: seq<Item>) returns (current: Option<string>)
      ensures current == FirstLaunchable(items)
    {
      for k := 0 to |items|
        invariant FirstLaunchable(items) == FirstLaunchable(items[k..])
      {
        if Launchable(items[k]) {
          return items[k].uid;
        }
      }
      return None;
    }

    /** Removes a profile and those it refers to; nothing when the uid is unknown. */
    method PlanDeleteItem(uid: string) returns (deletingCurrent: bool, plan: Option<seq<string>>)
      modifies this
      ensures plan.Some? <==> Has(Items(old(View())), Some(uid))
      ensures deletingCurrent <==> old(current).None? || old(current) == Some(uid)
      ensures plan.None? ==> View() == old(View())
      ensures plan.Some? ==>
                && View() == Deleted(old(View()), uid)
                && plan.value == TakenFiles(Items(old(View())), Doomed(old(View()), uid))
                && items.Some? && (!deletingCurrent ==> current == old(current))
    {
      deletingCurrent := current.None? || current == Some(uid);
      var list := if items.Some? then items.value else [];
      var i := Position(list, Some(uid));
      if i == |list| {
        return deletingCurrent, None;
      }
      var rest, files := TakeItems(list, [Some(uid)] + References(list[i]));
      if deletingCurrent {
        current := PickCurrent(rest);
      }
      items := Some(rest);
      return deletingCurrent, Some(files);
    }
  }
}
