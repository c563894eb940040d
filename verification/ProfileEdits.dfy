/** The edits of the profile list that run through the draft store's asynchronous update. */
module ProfileEdits {
  import opened Options
  import opened Reconcile
  import opened ProfileData

  function SelectedOf(item: Item): seq<Selected> {
    if item.selected.Some? then item.selected.value else []
  }

  function Packed(selected: seq<Selected>): Option<seq<Selected>> {
    if selected == [] then None else Some(selected)
  }

  /** The item of the current profile, when there is one. */
  function CurrentIndex(p: Profiles): nat {
    if p.current.None? then |Items(p)| else First(Items(p), p.current)
  }

  function WithSelected(p: Profiles, k: nat, selected: Option<seq<Selected>>): Profiles
    requires k < |Items(p)|
  {
    Replaced(p, k, Items(p)[k].(selected := selected))
  }

  /** Persists a reconciled list: only over the list it was computed from, and only while its
    * profile and its activation are current. */
  function Persist(p: Profiles, uid: string, original: seq<Selected>, selected: seq<Selected>, live: bool, saved: bool):
    Option<Profiles>
  {
    if !live || p.current != Some(uid) then Some(p)
    else
      var k := First(Items(p), Some(uid));
      if k == |Items(p)| then None
      else if SelectedOf(Items(p)[k]) != original then Some(p)
      else if saved then Some(WithSelected(p, k, Packed(selected))) else None
  }

  function FirstNamed(s: seq<Selected>, group: string): (i: nat)
    ensures i <= |s| && (i < |s| ==> s[i].name == Some(group))
    ensures forall k :: 0 <= k < i ==> s[k].name != Some(group)
  {
    if s == [] || s[0].name == Some(group) then 0 else 1 + FirstNamed(s[1..], group)
  }

  /** The list with the group's first record set, or with a new record at its end. */
  function Recorded(s: seq<Selected>, group: string, node: string): seq<Selected> {
    var i := FirstNamed(s, group);
    if i < |s| then s[i := s[i].(now := Some(node))] else s + [Selected(Some(group), Some(node))]
  }

  /** Records a selection made by the backend for the current profile. */
  function Record(p: Profiles, group: string, node: string, saved: bool): Option<Profiles> {
    var k := CurrentIndex(p);
    if k == |Items(p)| then Some(p)
    else
      var s := SelectedOf(Items(p)[k]);
      var i := FirstNamed(s, group);
      if i < |s| && s[i].now == Some(node) then Some(p)
      else if saved then Some(WithSelected(p, k, Some(Recorded(s, group, node)))) else None
  }

  function Forgotten(s: seq<Selected>, group: string): seq<Selected> {
    if s == [] then []
    else (if s[0].name == Some(group) then [] else [s[0]]) + Forgotten(s[1..], group)
  }

  function Forget(p: Profiles, group: string, saved: bool): Option<Profiles> {
    var k := CurrentIndex(p);
    if k == |Items(p)| then Some(p)
    else
      var s := SelectedOf(Items(p)[k]);
      if |Forgotten(s, group)| == |s| then Some(p)
      else if saved then Some(WithSelected(p, k, Packed(Forgotten(s, group)))) else None
  }

  function SwitchTo(p: Profiles, current: string): Option<Profiles> {
    Some(PatchConfig(p, Some(current)))
  }

  function Append(p: Profiles, item: Item, written: bool): Option<Profiles> {
    if item.uid.None? || (item.fileData.Some? && (item.file.None? || !written)) then None
    else Some(Appended(p, item))
  }

  function Reorder(p: Profiles, active: string, over: string, saved: bool): Option<Profiles> {
    if !Has(Items(p), Some(active)) || !Has(Items(p), Some(over)) then Some(p)
    else if saved then Some(Reordered(p, active, over)) else None
  }

  /** Deleting the current profile asks the core to accept the list without it first; when that is
    * rejected the list stays. Any other deletion only has to be saved. */
  function Delete(p: Profiles, uid: string, outcome: Outcome, saved: bool): Option<Profiles> {
    if !Has(Items(p), Some(uid)) then None
    else if DeletesCurrent(p, uid) then
      match outcome
      case Accepted => Some(Deleted(p, uid))
      case Rejected => Some(p)
      case Failed => None
    else if saved then Some(Deleted(p, uid)) else None
  }

  function Patch(p: Profiles, uid: string, patch: Item, valid: bool, saved: bool): Option<Profiles> {
    var k := First(Items(p), Some(uid));
    if (patch.file.Some? && !valid) || k == |Items(p)| || !saved then None
    else Some(Replaced(p, k, Patched(Items(p)[k], patch)))
  }

  function Refresh(p: Profiles, uid: string, update: Item, written: bool, saved: bool): Option<Profiles> {
    var k := First(Items(p), Some(uid));
    if (update.fileData.Some? && !written) || k == |Items(p)| || !saved then None
    else Some(Replaced(p, k, Refreshed(Items(p)[k], update, uid)))
  }

  /** Every update that the program commits. Outcomes of files and of the core are part of an edit;
    * `Saving` stands for those that touch nothing modelled here. */
  datatype Edit =
    | Persisting(uid: string, original: seq<Selected>, selected: seq<Selected>, live: bool, saved: bool)
    | Recording(group: string, node: string, saved: bool)
    | Forgetting(group: string, saved: bool)
    | Switching(current: string)
    | Appending(item: Item, written: bool)
    | Reordering(active: string, over: string, saved: bool)
    | Deleting(uid: string, outcome: Outcome, saved: bool)
    | Patching(uid: string, patch: Item, valid: bool, saved: bool)
    | Refreshing(uid: string, update: Item, written: bool, saved: bool)
    | Saving(saved: bool)

  function Enact(e: Edit, p: Profiles): Option<Profiles> {
    match e
    case Persisting(uid, original, selected, live, saved) => Persist(p, uid, original, selected, live, saved)
    case Recording(group, node, saved) => Record(p, group, node, saved)
    case Forgetting(group, saved) => Forget(p, group, saved)
    case Switching(current) => SwitchTo(p, current)
    case Appending(item, written) => Append(p, item, written)
    case Reordering(active, over, saved) => Reorder(p, active, over, saved)
    case Deleting(uid, outcome, saved) => Delete(p, uid, outcome, saved)
    case Patching(uid, patch, valid, saved) => Patch(p, uid, patch, valid, saved)
    case Refreshing(uid, update, written, saved) => Refresh(p, uid, update, written, saved)
    case Saving(saved) => if saved then Some(p) else None
  }

  function Closure(e: Edit): Profiles -> Option<Profiles> {
    (p: Profiles) => Enact(e, p)
  }
}
