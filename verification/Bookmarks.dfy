/** The bookmark lists of a user, and the bounded most-recently-used list they implement. */
module Bookmarks {
  import opened Text

  datatype Bookmark = Bookmark(name: string, link: string)

  datatype Group = Group(name: string, items: seq<Bookmark>)

  // ----- one group -----

  /** Index of the first bookmark of that name, or the length. */
  function IndexOf(items: seq<Bookmark>, name: string): (i: nat)
    ensures i <= |items|
    ensures forall k :: 0 <= k < i ==> items[k].name != name
    ensures i < |items| ==> items[i].name == name
  {
    if items == [] || items[0].name == name then 0 else 1 + IndexOf(items[1..], name)
  }

  predicate HasName(items: seq<Bookmark>, name: string) {
    exists i :: 0 <= i < |items| && items[i].name == name
  }

  /** Every bookmark of that name gets the link. */
  function Relinked(items: seq<Bookmark>, name: string, link: string): (r: seq<Bookmark>)
    ensures |r| == |items|
    ensures forall i :: 0 <= i < |items| ==> r[i] == if items[i].name == name then Bookmark(name, link) else items[i]
  {
    if items == [] then []
    else [if items[0].name == name then Bookmark(name, link) else items[0]] + Relinked(items[1..], name, link)
  }

  /** `_delete_item_from_group`: the first bookmark of that name is removed. */
  function Deleted(items: seq<Bookmark>, name: string): seq<Bookmark> {
    var i := IndexOf(items, name);
    if i == |items| then items else items[..i] + items[i + 1..]
  }

  /** Python's `items[:limit]`, where a negative limit counts from the end. */
  function Limited(items: seq<Bookmark>, limit: Option<int>): seq<Bookmark> {
    match limit
    case None => items
    case Some(n) =>
      if n >= |items| then items
      else if n >= 0 then items[..n]
      else if n + |items| >= 0 then items[..n + |items|]
      else []
  }

  /** `_add_item_to_group` */
  function Added(items: seq<Bookmark>, name: string, link: string, moveToTop: bool, limit: Option<int>): seq<Bookmark> {
    var relinked := Relinked(items, name, link);
    var placed :=
      if !HasName(items, name) then [Bookmark(name, link)] + relinked
      else if moveToTop then [Bookmark(name, link)] + Deleted(relinked, name)
      else relinked;
    Limited(placed, limit)
  }

  // ----- all groups -----

  function GroupIndex(data: seq<Group>, name: string): (i: nat)
    ensures i <= |data|
    ensures forall k :: 0 <= k < i ==> data[k].name != name
    ensures i < |data| ==> data[i].name == name
  {
    if data == [] || data[0].name == name then 0 else 1 + GroupIndex(data[1..], name)
  }

  /** The items of the first group of that name. */
  function ItemsOf(data: seq<Group>, name: string): Option<seq<Bookmark>> {
    var i := GroupIndex(data, name);
    if i < |data| then Some(data[i].items) else None
  }

  function WithBookmark(data: seq<Group>, group: string, name: string, link: string, moveToTop: bool,
                        limit: Option<int>): seq<Group> {
    var i := GroupIndex(data, group);
    if i < |data| then data[i := Group(group, Added(data[i].items, name, link, moveToTop, limit))]
    else data + [Group(group, Added([], name, link, false, None))]
  }

  class BookmarkList {
    var data: seq<Group>

    constructor (data: seq<Group>)
      ensures this.data == data
    {
      this.data := data;
    }

    static method DeleteItemFromGroup(items: seq<Bookmark>, name: string) returns (rest: seq<Bookmark>)
      ensures rest == Deleted(items, name)
    {
      var i := 0;
      while i < |items| && items[i].name != name
        invariant 0 <= i <= |items|
        invariant IndexOf(items, name) == i + IndexOf(items[i..], name)
      {
        assert items[i..][1..] == items[i + 1..];
        i := i + 1;
      }
      rest := if i < |items| then items[..i] + items[i + 1..] else items;
    }

    static method AddItemToGroup(items: seq<Bookmark>, name: string, link: string, moveToTop: bool := false,
                                 limit: Option<int> := None) returns (groupItems: seq<Bookmark>)
      ensures groupItems == Added(items, name, link, moveToTop, limit)
    {
      var itemFound;
      groupItems, itemFound := Relink(items, name, link);
      if !itemFound {
        groupItems := [Bookmark(name, link)] + groupItems;
      } else if moveToTop {
        var rest := DeleteItemFromGroup(groupItems, name);
        groupItems := [Bookmark(name, link)] + rest;
      }
      groupItems := Limited(groupItems, limit);
    }

    /** Gives the items of that name the new link. */
    static method Relink(items: seq<Bookmark>, name: string, link: string)
      returns (groupItems: seq<Bookmark>, itemFound: bool)
      ensures groupItems == Relinked(items, name, link) && itemFound == HasName(items, name)
    {
      groupItems := items;
      itemFound := false;
      ghost var relinked := Relinked(items, name, link);
      var i := 0;
      while i < |groupItems|
        invariant 0 <= i <= |groupItems| == |items|
        invariant forall k :: 0 <= k < i ==> groupItems[k] == relinked[k]
        invariant forall k :: i <= k < |items| ==> groupItems[k] == items[k]
        invariant itemFound <==> exists k :: 0 <= k < i && items[k].name == name
      {
        if groupItems[i].name == name {
          groupItems := groupItems[i := Bookmark(name, link)];
          itemFound := true;
        }
        i := i + 1;
      }
      assert groupItems == relinked;
    }

    method FindGroup(name: string) returns (i: nat)
      ensures i == GroupIndex(data, name)
    {
      i := 0;
      while i < |data| && data[i].name != name
        invariant 0 <= i <= |data|
        invariant GroupIndex(data, name) == i + GroupIndex(data[i..], name)
      {
        assert data[i..][1..] == data[i + 1..];
        i := i + 1;
      }
    }

    method AddBookmark(groupName: string, name: string, link: string, moveToTop: bool := false,
                       limit: Option<int> := None)
      modifies this
      ensures data == WithBookmark(old(data), groupName, name, link, moveToTop, limit)
    {
      var i := FindGroup(groupName);
      if i < |data| {
        var items := AddItemToGroup(data[i].items, name, link, moveToTop, limit);
        data := data[i := Group(groupName, items)];
      } else {
        var items := AddItemToGroup([], name, link);
        data := data + [Group(groupName, items)];
      }
    }

    method DeleteBookmark(groupName: string, name: string)
      modifies this
      ensures var i := GroupIndex(old(data), groupName);
              data == if i < |old(data)| then old(data)[i := Group(groupName, Deleted(old(data)[i].items, name))]
                      else old(data)
    {
      var i := FindGroup(groupName);
      if i < |data| {
        var items := DeleteItemFromGroup(data[i].items, name);
        data := data[i := Group(groupName, items)];
      }
    }

    method AddGroup(groupName: string)
      modifies this
      ensures data == if ItemsOf(old(data), groupName).Some? then old(data) else old(data) + [Group(groupName, [])]
    {
      var i := FindGroup(groupName);
      if i == |data| {
        data := data + [Group(groupName, [])];
      }
    }

    method DeleteGroup(groupName: string)
      modifies this
      ensures data == WithoutGroup(old(data), groupName)
    {
      var filtered := [];
      for i := 0 to |data|
        invariant data == old(data)
        invariant filtered == WithoutGroup(data[..i], groupName)
      {
        WithoutGroupStep(data, i, groupName);
        if data[i].name != groupName {
          filtered := filtered + [data[i]];
        }
      }
      assert data[..|data|] == data;
      data := filtered;
    }
  }

  function WithoutGroup(data: seq<Group>, name: string): (r: seq<Group>)
    ensures forall i :: 0 <= i < |r| ==> r[i].name != name
  {
    if data == [] then []
    else
      var last := data[|data| - 1];
      WithoutGroup(data[..|data| - 1], name) + (if last.name == name then [] else [last])
  }

  lemma WithoutGroupStep(data: seq<Group>, i: nat, name: string)
    requires i < |data|
    ensures WithoutGroup(data[..i + 1], name) ==
            WithoutGroup(data[..i], name) + (if data[i].name == name then [] else [data[i]])
  {
    assert data[..i + 1][..i] == data[..i];
  }

  // ----- the history of a most-recently-used group -----

  function Without(items: seq<Bookmark>, name: string): (r: seq<Bookmark>)
    ensures forall i :: 0 <= i < |r| ==> r[i].name != name && r[i] in items
  {
    if items == [] then []
    else (if items[0].name == name then [] else [items[0]]) + Without(items[1..], name)
  }

  /** The distinct names of a history of uses, most recent first, each with its latest link. */
  function Recent(uses: seq<Bookmark>): seq<Bookmark> {
    if uses == [] then []
    else
      var last := uses[|uses| - 1];
      [last] + Without(Recent(uses[..|uses| - 1]), last.name)
  }

  function AfterUses(data: seq<Group>, group: string, uses: seq<Bookmark>, limit: int): seq<Group> {
    if uses == [] then data
    else
      var last := uses[|uses| - 1];
      WithBookmark(AfterUses(data, group, uses[..|uses| - 1], limit), group, last.name, last.link, true, Some(limit))
  }

  predicate DistinctNames(items: seq<Bookmark>) {
    forall i, j :: 0 <= i < j < |items| ==> items[i].name != items[j].name
  }

  lemma {:induction false} WithoutDistinct(items: seq<Bookmark>, name: string)
    requires DistinctNames(items)
    ensures DistinctNames(Without(items, name))
  {
    if items != [] {
      WithoutDistinct(items[1..], name);
      var r := Without(items[1..], name);
      forall i | 0 <= i < |r|
        ensures r[i].name != items[0].name
      {
        assert r[i] in items[1..];
      }
    }
  }

  lemma {:induction false} WithoutKeeps(items: seq<Bookmark>, name: string, b: Bookmark)
    requires b in items && b.name != name
    ensures b in Without(items, name)
  {
    if items[0] != b {
      WithoutKeeps(items[1..], name, b);
    }
  }

  /** Position `k` is the last use of a name, with that link. */
  predicate LastUse(uses: seq<Bookmark>, k: int, b: Bookmark) {
    0 <= k < |uses| && uses[k] == b && forall j :: k < j < |uses| ==> uses[j].name != b.name
  }

  lemma LastUseBefore(uses: seq<Bookmark>, k: int, b: Bookmark)
    requires uses != []
    ensures var n := |uses| - 1;
            LastUse(uses, k, b) <==>
            if k == n then b == uses[n] else LastUse(uses[..n], k, b) && b.name != uses[n].name
  {
    var n := |uses| - 1;
    assert forall j :: 0 <= j < n ==> uses[..n][j] == uses[j];
  }

  lemma {:induction false} RecentIsUsed(uses: seq<Bookmark>, i: nat) returns (k: nat)
    requires i < |Recent(uses)|
    ensures LastUse(uses, k, Recent(uses)[i])
  {
    var n := |uses| - 1;
    if i == 0 {
      k := n;
    } else {
      var r := Without(Recent(uses[..n]), uses[n].name);
      assert Recent(uses)[i] == r[i - 1] && r[i - 1] in Recent(uses[..n]);
      var m :| 0 <= m < |Recent(uses[..n])| && Recent(uses[..n])[m] == r[i - 1];
      k := RecentIsUsed(uses[..n], m);
      LastUseBefore(uses, k, r[i - 1]);
    }
  }

  lemma StillRecent(uses: seq<Bookmark>, b: Bookmark)
    requires uses != []
    requires var n := |uses| - 1; b == uses[n] || b in Without(Recent(uses[..n]), uses[n].name)
    ensures b in Recent(uses)
  {
  }

  lemma {:induction false} UsedIsRecent(uses: seq<Bookmark>, k: nat, b: Bookmark)
    requires LastUse(uses, k, b)
    ensures b in Recent(uses)
  {
    var n := |uses| - 1;
    LastUseBefore(uses, k, b);
    if k < n {
      UsedIsRecent(uses[..n], k, b);
      WithoutKeeps(Recent(uses[..n]), uses[n].name, b);
    }
    StillRecent(uses, b);
  }

  lemma {:induction false} RecentDistinct(uses: seq<Bookmark>)
    ensures DistinctNames(Recent(uses))
  {
    if uses != [] {
      RecentDistinct(uses[..|uses| - 1]);
      WithoutDistinct(Recent(uses[..|uses| - 1]), uses[|uses| - 1].name);
    }
  }

  predicate NewestFirst(items: seq<Bookmark>, uses: seq<Bookmark>) {
    forall i, j, k, m | 0 <= i < j < |items| && 0 <= k < |uses| && 0 <= m < |uses| &&
                        LastUse(uses, k, items[i]) && LastUse(uses, m, items[j]) :: k > m
  }

  lemma {:induction false} WithoutOrdered(items: seq<Bookmark>, uses: seq<Bookmark>, name: string)
    requires NewestFirst(items, uses)
    ensures NewestFirst(Without(items, name), uses)
  {
    if items != [] {
      assert NewestFirst(items[1..], uses);
      WithoutOrdered(items[1..], uses, name);
      var r := Without(items[1..], name);
      forall j | 0 <= j < |r|
        ensures exists i :: 1 <= i < |items| && items[i] == r[j]
      {
        assert r[j] in items[1..];
      }
    }
  }

  /** One more use comes before all others. */
  lemma OrderedMore(r: seq<Bookmark>, uses: seq<Bookmark>)
    requires uses != [] && NewestFirst(r, uses[..|uses| - 1])
    requires forall i :: 0 <= i < |r| ==> r[i].name != uses[|uses| - 1].name
    ensures NewestFirst([uses[|uses| - 1]] + r, uses)
  {
    var n := |uses| - 1;
    var all := [uses[n]] + r;
    forall i, j, k, m | 0 <= i < j < |all| && 0 <= k < |uses| && 0 <= m < |uses| &&
                        LastUse(uses, k, all[i]) && LastUse(uses, m, all[j])
      ensures k > m
    {
      LastUseBefore(uses, k, all[i]);
      LastUseBefore(uses, m, all[j]);
      assert all[j] == r[j - 1];
      if i > 0 {
        assert all[i] == r[i - 1];
      } else {
        assert k == n;
      }
    }
  }

  lemma {:induction false} RecentOrdered(uses: seq<Bookmark>)
    ensures NewestFirst(Recent(uses), uses)
  {
    if uses != [] {
      var before, last := uses[..|uses| - 1], uses[|uses| - 1];
      RecentOrdered(before);
      WithoutOrdered(Recent(before), before, last.name);
      OrderedMore(Without(Recent(before), last.name), uses);
    }
  }

  // ----- the bounded list -----

  lemma {:induction false} WithoutAbsent(items: seq<Bookmark>, name: string)
    requires !HasName(items, name)
    ensures Without(items, name) == items
    ensures forall link :: Relinked(items, name, link) == items
  {
    if items != [] {
      assert items[0].name != name;
      assert !HasName(items[1..], name) by {
        assert forall i :: 0 <= i < |items[1..]| ==> items[1..][i] == items[i + 1];
      }
      WithoutAbsent(items[1..], name);
    }
  }

  /** Relinking the bookmark and deleting it removes exactly that name. */
  lemma {:induction false} DeletedRelinked(items: seq<Bookmark>, name: string, link: string)
    requires DistinctNames(items) && HasName(items, name)
    ensures Deleted(Relinked(items, name, link), name) == Without(items, name)
  {
    var r := Relinked(items, name, link);
    if items[0].name == name {
      assert !HasName(items[1..], name) by {
        assert forall i :: 0 <= i < |items[1..]| ==> items[1..][i] == items[i + 1];
      }
      WithoutAbsent(items[1..], name);
      assert IndexOf(r, name) == 0;
    } else {
      assert HasName(items[1..], name) by {
        var i :| 0 <= i < |items| && items[i].name == name;
        assert items[1..][i - 1].name == name;
      }
      DeletedRelinked(items[1..], name, link);
      assert r[1..] == Relinked(items[1..], name, link);
      DeletedCons(r, name);
    }
  }

  lemma DeletedCons(r: seq<Bookmark>, name: string)
    requires r != [] && r[0].name != name
    ensures Deleted(r, name) == [r[0]] + Deleted(r[1..], name)
  {
    var i := IndexOf(r[1..], name);
    if i == |r[1..]| {
      assert [r[0]] + r[1..] == r;
    } else {
      assert r[..i + 1] + r[i + 2..] == [r[0]] + (r[1..][..i] + r[1..][i + 1..]);
    }
  }

  lemma {:induction false} WithoutPrefix(items: seq<Bookmark>, n: nat, name: string)
    requires n <= |items| && DistinctNames(items)
    ensures Without(items[..n], name) <= Without(items, name)
    ensures |Without(items[..n], name)| >= n - 1
  {
    if n > 0 {
      assert items[..n][1..] == items[1..][..n - 1];
      if items[0].name == name {
        assert !HasName(items[1..], name) by {
          assert forall i :: 0 <= i < |items[1..]| ==> items[1..][i] == items[i + 1];
        }
        assert !HasName(items[..n][1..], name);
        WithoutAbsent(items[..n][1..], name);
        WithoutAbsent(items[1..], name);
      } else {
        WithoutPrefix(items[1..], n - 1, name);
      }
    }
  }

  /** Adding to a list that was cut to the limit gives the same as cutting afterwards. */
  lemma {:induction false} AddedToLimited(items: seq<Bookmark>, b: Bookmark, limit: int)
    requires limit >= 1 && DistinctNames(items)
    ensures Added(Limited(items, Some(limit)), b.name, b.link, true, Some(limit)) ==
            Limited([b] + Without(items, b.name), Some(limit))
  {
    var n := if limit < |items| then limit else |items|;
    var cut := items[..n];
    assert cut == Limited(items, Some(limit));
    assert DistinctNames(cut);
    if HasName(cut, b.name) {
      DeletedRelinked(cut, b.name, b.link);
    } else {
      WithoutAbsent(cut, b.name);
    }
    WithoutPrefix(items, n, b.name);
    SameFront(b, Without(cut, b.name), Without(items, b.name), limit, n == |items|);
    assert n == |items| ==> cut == items;
  }

  lemma SameFront(b: Bookmark, x: seq<Bookmark>, y: seq<Bookmark>, limit: int, all: bool)
    requires limit >= 1 && x <= y && (|x| >= limit - 1 || x == y)
    ensures Limited([b] + x, Some(limit)) == Limited([b] + y, Some(limit))
  {
    if x != y {
      assert ([b] + x)[..limit] == ([b] + y)[..limit];
    }
  }

  /**
   Bounded most-recently-used list: after any history of additions to a new group with a fixed limit
   of at least 1, the group is the front of the recently used bookmarks, and nothing else changed.
   */
  lemma {:induction false} BoundedRecency(data: seq<Group>, group: string, uses: seq<Bookmark>, limit: int)
    requires limit >= 1 && uses != [] && ItemsOf(data, group).None?
    ensures AfterUses(data, group, uses, limit) == data + [Group(group, Limited(Recent(uses), Some(limit)))]
  {
    var n := |uses| - 1;
    var b := uses[n];
    GroupAtEnd(data, group);
    if n == 0 {
      assert uses[..n] == [] && Recent(uses) == [b];
    } else {
      BoundedRecency(data, group, uses[..n], limit);
      RecentDistinct(uses[..n]);
      AddedToLimited(Recent(uses[..n]), b, limit);
    }
  }

  lemma {:induction false} GroupAtEnd(data: seq<Group>, name: string)
    requires ItemsOf(data, name).None?
    ensures forall items :: GroupIndex(data + [Group(name, items)], name) == |data|
  {
    if data != [] {
      GroupAtEnd(data[1..], name);
      forall items
        ensures GroupIndex(data + [Group(name, items)], name) == |data|
      {
        assert (data + [Group(name, items)])[1..] == data[1..] + [Group(name, items)];
      }
    }
  }

  /** The bound itself: a new group respects its limit if and only if the limit is at least 1. */
  lemma {:induction false} LimitRespected(data: seq<Group>, group: string, uses: seq<Bookmark>, b: Bookmark, limit: int)
    requires ItemsOf(data, group).None?
    ensures limit >= 1 && uses != [] ==>
              ItemsOf(AfterUses(data, group, uses, limit), group).Some? &&
              |ItemsOf(AfterUses(data, group, uses, limit), group).value| <= limit
    ensures limit < 1 ==>
              ItemsOf(AfterUses(data, group, [b], limit), group).Some? &&
              |ItemsOf(AfterUses(data, group, [b], limit), group).value| > limit
  {
    GroupAtEnd(data, group);
    if limit >= 1 {
      if uses != [] {
        BoundedRecency(data, group, uses, limit);
      }
    } else {
      assert [b][..0] == [];
    }
  }

  /** The bookmark as it is after its name got the link. */
  function Linked(b: Bookmark, name: string, link: string): Bookmark {
    if b.name == name then Bookmark(b.name, link) else b
  }

  lemma {:induction false} UnknownKept(items: seq<Bookmark>, name: string, link: string)
    requires forall i :: 0 <= i < |items| ==> items[i].name != name
    ensures Relinked(items, name, link) == items
  {
  }

  /** Without a limit or moving, adding puts a new name in front and only changes the link of a known one. */
  lemma {:induction false} PlainAddKeepsOrder(items: seq<Bookmark>, name: string, link: string)
    ensures var r := Added(items, name, link, false, None);
            if exists i :: 0 <= i < |items| && items[i].name == name then
              |r| == |items| && forall i :: 0 <= i < |items| ==> r[i] == Linked(items[i], name, link)
            else r == [Bookmark(name, link)] + items
  {
    if !HasName(items, name) {
      UnknownKept(items, name, link);
    }
  }

  /** What a Python slice keeps of the front of a list. */
  predicate FrontOf(r: seq<Bookmark>, all: seq<Bookmark>, limit: Option<int>) {
    && r <= all
    && match limit
       case None => r == all
       case Some(n) =>
         if n >= 0 then |r| <= n && (|r| < |all| ==> |r| == n)
         else if |all| + n < 0 then r == [] else |r| == |all| + n
  }

  lemma LimitedIsFront(items: seq<Bookmark>, limit: Option<int>)
    ensures FrontOf(Limited(items, limit), items, limit)
  {
  }

  /** Adding a new name puts it in front, with any limit. */
  lemma {:induction false} NewInFront(items: seq<Bookmark>, name: string, link: string, moveToTop: bool,
                                      limit: Option<int>)
    requires forall i :: 0 <= i < |items| ==> items[i].name != name
    ensures FrontOf(Added(items, name, link, moveToTop, limit), [Bookmark(name, link)] + items, limit)
  {
    assert !HasName(items, name);
    WithoutAbsent(items, name);
    LimitedIsFront([Bookmark(name, link)] + items, limit);
  }

  /** Adding a name that is there moves its first bookmark to the front, with the new link. */
  lemma {:induction false} KnownInFront(items: seq<Bookmark>, k: nat, name: string, link: string, limit: Option<int>)
    requires k < |items| && items[k].name == name && forall i :: 0 <= i < k ==> items[i].name != name
    requires forall i :: k < i < |items| ==> items[i].name != name
    ensures var others := items[..k] + items[k + 1..];
            FrontOf(Added(items, name, link, true, limit), [Bookmark(name, link)] + others, limit)
  {
    var r := Relinked(items, name, link);
    var i := IndexOf(r, name);
    assert HasName(items, name) && r[k].name == name;
    assert i == k;
    assert r[..k] == items[..k] && r[k + 1..] == items[k + 1..];
    LimitedIsFront([Bookmark(name, link)] + (items[..k] + items[k + 1..]), limit);
  }

  /** Deleting a name removes its first bookmark and nothing else. */
  lemma {:induction false} FirstDeleted(items: seq<Bookmark>, k: nat, name: string)
    requires k <= |items| && forall i :: 0 <= i < k ==> items[i].name != name
    ensures k < |items| && items[k].name == name ==> Deleted(items, name) == items[..k] + items[k + 1..]
    ensures k == |items| ==> Deleted(items, name) == items
  {
    var i := IndexOf(items, name);
    assert k < |items| && items[k].name == name ==> i == k;
    assert k == |items| ==> i == k;
  }

  predicate Increasing(places: seq<nat>) {
    forall i, j :: 0 <= i < j < |places| ==> places[i] < places[j]
  }

  /** The places of the groups of other names. */
  predicate OthersAt(places: seq<nat>, data: seq<Group>, name: string) {
    && Increasing(places) && (forall i :: 0 <= i < |places| ==> places[i] < |data|)
    && forall j :: 0 <= j < |data| ==> (j in places <==> data[j].name != name)
  }

  predicate AreAt(kept: seq<Group>, data: seq<Group>, places: seq<nat>) {
    |kept| == |places| && forall i :: 0 <= i < |places| ==> places[i] < |data| && kept[i] == data[places[i]]
  }

  lemma OthersMore(places: seq<nat>, data: seq<Group>, g: Group, name: string)
    requires OthersAt(places, data, name)
    ensures OthersAt(if g.name != name then places + [|data|] else places, data + [g], name)
  {
    var more := if g.name != name then places + [|data|] else places;
    forall j | 0 <= j < |data| + 1
      ensures j in more <==> (data + [g])[j].name != name
    {
      assert j < |data| ==> (data + [g])[j] == data[j];
    }
  }

  lemma AreAtMore(kept: seq<Group>, data: seq<Group>, places: seq<nat>, g: Group)
    requires AreAt(kept, data, places)
    ensures AreAt(kept, data + [g], places) && AreAt(kept + [g], data + [g], places + [|data|])
  {
  }

  lemma WithoutGroupLast(data: seq<Group>, g: Group, name: string)
    ensures WithoutGroup(data + [g], name) == WithoutGroup(data, name) + (if g.name == name then [] else [g])
  {
    assert (data + [g])[..|data|] == data;
  }

  /** Deleting groups keeps exactly those of other names, whole and in order. */
  lemma {:induction false} OtherGroupsStay(data: seq<Group>, name: string) returns (places: seq<nat>)
    ensures OthersAt(places, data, name) && AreAt(WithoutGroup(data, name), data, places)
  {
    if data == [] {
      places := [];
    } else {
      var init, last := data[..|data| - 1], data[|data| - 1];
      var more := OtherGroupsStay(init, name);
      InitLast(data);
      OthersMore(more, init, last, name);
      AreAtMore(WithoutGroup(init, name), init, more, last);
      WithoutGroupLast(init, last, name);
      places := if last.name != name then more + [|init|] else more;
    }
  }
}
