/** Remembering a group member by its kind, name, source and occurrence, and finding it again in a
  * list that may have changed. */
module MemberBinding {
  import opened Options

  datatype Source = Core(proxyName: string) | Provider(providerName: string, proxyName: string)

  /** `record` stands for the group or node that the member resolves to. */
  datatype Member =
    | GroupMember(name: string, record: nat)
    | NodeMember(name: string, source: Source, record: nat)
    | UnresolvedMember(name: string)

  datatype Binding =
    | GroupBinding(name: string, occurrence: int)
    | NodeBinding(name: string, source: Source, occurrence: int)

  datatype Found = Found(index: nat, member: Member)

  predicate Interactable(m: Member) {
    !m.UnresolvedMember?
  }

  predicate SameSource(left: Source, right: Source) {
    && left.Core? == right.Core?
    && left.proxyName == right.proxyName
    && (left.Core? || (right.Provider? && left.providerName == right.providerName))
  }

  predicate Matches(m: Member, b: Binding) {
    && ((m.GroupMember? && b.GroupBinding?) || (m.NodeMember? && b.NodeBinding?))
    && m.name == b.name
    && (!m.NodeMember? || (b.NodeBinding? && SameSource(m.source, b.source)))
  }

  /** How many of the members have the property. */
  function Tally(members: seq<Member>, p: Member -> bool): nat {
    if members == [] then 0
    else Tally(members[..|members| - 1], p) + if p(members[|members| - 1]) then 1 else 0
  }

  /** How many of the members match the binding. */
  function Count(members: seq<Member>, b: Binding): nat {
    Tally(members, (m: Member) => Matches(m, b))
  }

  function Bare(m: Member): Binding
    requires Interactable(m)
  {
    match m
    case GroupMember(name, _) => GroupBinding(name, 0)
    case NodeMember(name, source, _) => NodeBinding(name, source, 0)
  }

  /** The member at k is the one that the binding means: it matches, and exactly as many matching
    * members stand before it as the binding says. */
  ghost predicate Means(members: seq<Member>, b: Binding, k: nat) {
    k < |members| && Matches(members[k], b) && Count(members[..k], b) == b.occurrence
  }

  method ToMemberOccurrenceBinding(members: seq<Member>, memberIndex: int) returns (binding: Option<Binding>)
    ensures binding.Some? <==> 0 <= memberIndex < |members| && Interactable(members[memberIndex])
    ensures binding.Some? ==> Means(members, binding.value, memberIndex)
  {
    if memberIndex < 0 || memberIndex >= |members| || !Interactable(members[memberIndex]) {
      return None;
    }
    var member := members[memberIndex];
    var b := Bare(member);
    assert Matches(member, b);
    for index := 0 to memberIndex
      invariant Bare(member) == b.(occurrence := 0)
      invariant b.occurrence == Count(members[..index], b)
    {
      assert members[..index + 1][..index] == members[..index];
      if Matches(members[index], b) {
        CountIgnoresOccurrence(members[..index], b, b.(occurrence := b.occurrence + 1));
        b := b.(occurrence := b.occurrence + 1);
      }
    }
    return Some(b);
  }

  lemma CountIgnoresOccurrence(members: seq<Member>, a: Binding, b: Binding)
    requires a.(occurrence := 0) == b.(occurrence := 0)
    ensures Count(members, a) == Count(members, b)
  {
    SameTally(members, (m: Member) => Matches(m, a), (m: Member) => Matches(m, b));
  }

  method RebindMemberOccurrence(members: seq<Member>, binding: Binding) returns (found: Option<Found>)
    ensures found.Some? ==>
              Means(members, binding, found.value.index) && found.value.member == members[found.value.index]
    ensures found.None? ==> forall k :: !Means(members, binding, k)
  {
    var occurrence := 0;
    for memberIndex := 0 to |members|
      invariant occurrence == Count(members[..memberIndex], binding)
      invariant forall k :: 0 <= k < memberIndex ==> !Means(members, binding, k)
    {
      var member := members[memberIndex];
      assert members[..memberIndex + 1][..memberIndex] == members[..memberIndex];
      if !Interactable(member) || !Matches(member, binding) {
        continue;
      }
      if occurrence == binding.occurrence {
        return Some(Found(memberIndex, member));
      }
      occurrence := occurrence + 1;
    }
    return None;
  }

  lemma {:induction false} CountGrows(members: seq<Member>, b: Binding, i: nat, j: nat)
    requires i < j <= |members|
    ensures Count(members[..i], b) + (if Matches(members[i], b) then 1 else 0) <= Count(members[..j], b)
  {
    assert members[..j][..j - 1] == members[..j - 1];
    if i + 1 < j {
      CountGrows(members, b, i, j - 1);
    }
  }

  /** A binding means at most one member of any list, so what a rebind finds is determined. */
  lemma MeaningIsUnique(members: seq<Member>, b: Binding, i: nat, j: nat)
    requires Means(members, b, i) && Means(members, b, j)
    ensures i == j
  {
    if i < j {
      CountGrows(members, b, i, j);
    } else if j < i {
      CountGrows(members, b, j, i);
    }
  }

  /** Comparing sources field by field, and then bindings, is comparing them. */
  lemma BindingsOfOneMember(m: Member, a: Binding, b: Binding)
    requires Matches(m, a) && Matches(m, b)
    ensures a.(occurrence := 0) == b.(occurrence := 0)
  {
  }

  /** Distinct members of a list have distinct bindings, and each member has one. */
  lemma BindingIsUnique(members: seq<Member>, a: Binding, b: Binding, i: nat, j: nat)
    requires Means(members, a, i) && Means(members, b, j)
    ensures a == b <==> i == j
  {
    if i == j {
      BindingsOfOneMember(members[i], a, b);
      CountIgnoresOccurrence(members[..i], a, b);
    } else if a == b {
      MeaningIsUnique(members, a, i, j);
    }
  }

  /** Binding a member and rebinding on the same list returns it; on another list it returns the
    * member preceded by the same number of equal ones, or nothing when there is none. */
  method BindThenRebind(members: seq<Member>, index: nat, later: seq<Member>)
    returns (same: Option<Found>, moved: Option<Found>)
    requires index < |members| && Interactable(members[index])
    ensures same == Some(Found(index, members[index]))
    ensures moved.Some? ==>
              var k := moved.value.index;
              && k < |later| && moved.value.member == later[k]
              && Alike(later[k], members[index])
              && Equals(later[..k], members[index]) == Equals(members[..index], members[index])
    ensures moved.None? ==> Equals(later, members[index]) <= Equals(members[..index], members[index])
  {
    var binding := ToMemberOccurrenceBinding(members, index);
    var b := binding.value;
    same := RebindMemberOccurrence(members, b);
    if same.None? {
      assert false;
    }
    MeaningIsUnique(members, b, index, same.value.index);
    moved := RebindMemberOccurrence(later, b);
    CountIsEquals(members[..index], members[index], b);
    if moved.Some? {
      CountIsEquals(later[..moved.value.index], members[index], b);
    } else {
      CountIsEquals(later, members[index], b);
      if Count(later, b) > b.occurrence {
        var k := Reach(later, b, b.occurrence);
        assert Means(later, b, k);
      }
    }
  }

  /** Two members that agree in kind, name and source, whatever they resolve to. */
  predicate Alike(a: Member, b: Member) {
    || (a.GroupMember? && b.GroupMember? && a.name == b.name)
    || (a.NodeMember? && b.NodeMember? && a.name == b.name && a.source == b.source)
  }

  /** How many of the members are like this one. */
  function Equals(members: seq<Member>, m: Member): nat {
    Tally(members, (x: Member) => Alike(x, m))
  }

  lemma {:induction false} SameTally(members: seq<Member>, p: Member -> bool, q: Member -> bool)
    requires forall x :: p(x) == q(x)
    ensures Tally(members, p) == Tally(members, q)
  {
    if members != [] {
      SameTally(members[..|members| - 1], p, q);
    }
  }

  lemma CountIsEquals(members: seq<Member>, m: Member, b: Binding)
    requires Matches(m, b)
    ensures Count(members, b) == Equals(members, m)
    ensures forall x :: Matches(x, b) <==> Alike(x, m)
  {
    SameTally(members, (x: Member) => Matches(x, b), (x: Member) => Alike(x, m));
  }

  /** Some member is preceded by any number of matches below the total. */
  lemma {:induction false} Reach(members: seq<Member>, b: Binding, n: nat) returns (k: nat)
    requires n < Count(members, b)
    ensures k < |members| && Matches(members[k], b) && Count(members[..k], b) == n
  {
    var init := members[..|members| - 1];
    if n < Count(init, b) {
      k := Reach(init, b, n);
      assert init[..k] == members[..k];
    } else {
      k := |members| - 1;
    }
  }
}
