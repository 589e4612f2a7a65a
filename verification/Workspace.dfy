/** Building the workspace registry from stored records and Session headers (workspace/registry.go). */
module Workspace {
  import opened Events
  import opened Order

  datatype Record = Record(
    id: string,
    path: string,
    sessionIds: seq<string>,
    createdAt: int,
    updatedAt: int)

  datatype Stored = Stored(initialized: bool, workspaceIds: seq<string>, archived: seq<string>, records: seq<Record>)

  /** A Session header; the canonical path of its directory is kept beside it. */
  datatype Header = Header(id: string, createdAt: int)

  ghost predicate Distinct(ids: seq<string>) {
    forall i, j :: 0 <= i < j < |ids| ==> ids[i] != ids[j]
  }

  ghost predicate DisjointAccounts(a: Record, b: Record) {
    && a.id != b.id && a.path != b.path
    && forall i :: 0 <= i < |a.sessionIds| ==> a.sessionIds[i] !in b.sessionIds
  }

  ghost predicate Names(records: seq<Record>, id: string) {
    exists i :: 0 <= i < |records| && records[i].id == id
  }

  /** What persistence may hold: complete records under distinct ids and paths, no Session in two accounts,
      and an order that names existing records once, all of them once initialized. */
  ghost predicate ValidState(stored: Stored) {
    && (forall i :: 0 <= i < |stored.records| ==>
          stored.records[i].id != "" && stored.records[i].path != "" && Distinct(stored.records[i].sessionIds))
    && (forall i, j :: 0 <= i < |stored.records| && 0 <= j < |stored.records| && i != j ==>
          DisjointAccounts(stored.records[i], stored.records[j]))
    && Distinct(stored.workspaceIds)
    && (forall k :: 0 <= k < |stored.workspaceIds| ==> Names(stored.records, stored.workspaceIds[k]))
    && (stored.initialized ==> |stored.workspaceIds| == |stored.records|)
  }

  /* ----- sorting ----- */

  ghost predicate StrictTotal<T(!new)>(s: set<T>, before: (T, T) -> bool) {
    && (forall a :: a in s ==> !before(a, a))
    && (forall a, b :: a in s && b in s ==> a == b || before(a, b) || before(b, a))
    && (forall a, b, c :: a in s && b in s && c in s && before(a, b) && before(b, c) ==> before(a, c))
  }

  ghost predicate SortedBy<T(!new)>(s: seq<T>, before: (T, T) -> bool) {
    forall i, j :: 0 <= i < j < |s| ==> before(s[i], s[j])
  }

  ghost predicate Lists<T(!new)>(result: seq<T>, s: set<T>) {
    |result| == |s| && forall x :: x in result <==> x in s
  }

  method First<T(==, !new)>(s: set<T>, before: (T, T) -> bool) returns (first: T)
    requires s != {} && StrictTotal(s, before)
    ensures first in s && forall x :: x in s ==> x == first || before(first, x)
  {
    first :| first in s;
    var rest := s - {first};
    while rest != {}
      invariant rest <= s && first in s && first !in rest
      invariant forall x :: x in s && x !in rest ==> x == first || before(first, x)
      decreases |rest|
    {
      var next :| next in rest;
      rest := rest - {next};
      if before(next, first) { first := next; }
    }
  }

  /** Lists a set in the one order the comparison allows. */
  method SortBy<T(==, !new)>(s: set<T>, before: (T, T) -> bool) returns (result: seq<T>)
    requires StrictTotal(s, before)
    ensures Lists(result, s) && SortedBy(result, before)
  {
    result := [];
    var rest := s;
    while rest != {}
      invariant rest <= s && |result| + |rest| == |s|
      invariant forall x :: x in result <==> x in s && x !in rest
      invariant SortedBy(result, before)
      invariant forall i, x :: 0 <= i < |result| && x in rest ==> before(result[i], x)
      decreases |rest|
    {
      var next := First(rest, before);
      result := result + [next];
      rest := rest - {next};
    }
  }

  /** A sorted listing names nothing twice. */
  lemma SortedIsDistinct<T(!new)>(s: seq<T>, all: set<T>, before: (T, T) -> bool)
    requires StrictTotal(all, before) && SortedBy(s, before) && forall x :: x in s ==> x in all
    ensures forall i, j :: 0 <= i < j < |s| ==> s[i] != s[j]
  {
    forall i, j | 0 <= i < j < |s| ensures s[i] != s[j] {
      assert before(s[i], s[j]) && s[i] in all;
    }
  }

  /* ----- membership ----- */

  /** The Sessions of a group that no other account holds. */
  function Unclaimed(ids: seq<string>, accounted: map<string, string>, holder: Option<string>): seq<string> {
    if ids == [] then []
    else
      var last := ids[|ids| - 1];
      Unclaimed(ids[..|ids| - 1], accounted, holder)
      + (if last !in accounted || Some(accounted[last]) == holder then [last] else [])
  }

  lemma {:induction false} UnclaimedHas(ids: seq<string>, accounted: map<string, string>, holder: Option<string>)
    ensures forall s :: s in Unclaimed(ids, accounted, holder) <==>
              s in ids && (s !in accounted || Some(accounted[s]) == holder)
    ensures Distinct(ids) ==> Distinct(Unclaimed(ids, accounted, holder))
  {
    if ids != [] {
      var front := ids[..|ids| - 1];
      UnclaimedHas(front, accounted, holder);
      assert ids == front + [ids[|ids| - 1]];
    }
  }

  method CollectUnclaimed(ids: seq<string>, accounted: map<string, string>, holder: Option<string>)
    returns (result: seq<string>)
    ensures result == Unclaimed(ids, accounted, holder)
  {
    result := [];
    for i := 0 to |ids|
      invariant result == Unclaimed(ids[..i], accounted, holder)
    {
      assert ids[..i + 1][..i] == ids[..i];
      if ids[i] !in accounted || Some(accounted[ids[i]]) == holder { result := result + [ids[i]]; }
    }
    assert ids[..|ids|] == ids;
  }

  /** A list followed by what it lacks of another. */
  function Followed(first: seq<string>, others: seq<string>): seq<string> {
    if others == [] then first
    else
      var last := others[|others| - 1];
      Followed(first, others[..|others| - 1]) + (if last in first then [] else [last])
  }

  lemma {:induction false} FollowedHas(first: seq<string>, others: seq<string>)
    ensures forall s :: s in Followed(first, others) <==> s in first || s in others
    ensures Distinct(first) && Distinct(others) ==> Distinct(Followed(first, others))
  {
    if others != [] {
      var front := others[..|others| - 1];
      FollowedHas(first, front);
      assert others == front + [others[|others| - 1]];
    }
  }

  method CollectFollowed(first: seq<string>, others: seq<string>) returns (result: seq<string>)
    ensures result == Followed(first, others)
  {
    result := first;
    for i := 0 to |others|
      invariant result == Followed(first, others[..i])
    {
      assert others[..i + 1][..i] == others[..i];
      if others[i] !in first { result := result + [others[i]]; }
    }
    assert others[..|others|] == others;
  }

  /* ----- accounts while they are built ----- */

  type Accounts = map<string, Record>

  ghost predicate Shaped(record: Record, path: string) {
    path != "" && record.path == path && record.id != "" && Distinct(record.sessionIds)
  }

  ghost predicate Holds(record: Record, accounted: map<string, string>) {
    forall s :: s in record.sessionIds ==> s in accounted && accounted[s] == record.id
  }

  ghost predicate Located(records: Accounts, s: string) {
    exists p :: p in records && s in records[p].sessionIds
  }

  ghost predicate OneId(records: Accounts) {
    forall p, q :: p in records && q in records && records[p].id == records[q].id ==> p == q
  }

  /** Records under their own paths and distinct ids, with an index that names the one holder of every Session. */
  ghost predicate Indexed(records: Accounts, accounted: map<string, string>) {
    && OneId(records)
    && (forall p :: p in records ==> Shaped(records[p], p) && Holds(records[p], accounted))
    && (forall s :: s in accounted ==> Located(records, s))
  }

  /** A record may take these Sessions: it held them before or nobody did. */
  ghost predicate MayTake(records: Accounts, accounted: map<string, string>, record: Record, added: seq<string>) {
    && (forall p :: p in records && records[p].id == record.id ==> p == record.path)
    && (record.path in records ==> records[record.path].id == record.id)
    && (forall s :: s in added ==> s !in accounted || accounted[s] == record.id)
    && (forall s :: s in record.sessionIds <==>
          s in added || (record.path in records && s in records[record.path].sessionIds))
  }

  /** Giving one record a new membership, of Sessions it already held or nobody did, keeps the index. */
  lemma AssignKeepsIndex(records: Accounts, accounted: map<string, string>, record: Record, added: seq<string>)
    requires Indexed(records, accounted) && Shaped(record, record.path) && MayTake(records, accounted, record, added)
    ensures Indexed(records[record.path := record], Assigned(accounted, added, record.id))
  {
    var after := records[record.path := record];
    var index := Assigned(accounted, added, record.id);
    forall p | p in after ensures Shaped(after[p], p) && Holds(after[p], index) {
      if p != record.path { OthersKeepHolding(records, accounted, record, added, p); }
    }
    forall s | s in index ensures Located(after, s) {
      StaysLocated(records, accounted, record, added, s);
    }
  }

  lemma OthersKeepHolding(records: Accounts, accounted: map<string, string>, record: Record,
                          added: seq<string>, p: string)
    requires Indexed(records, accounted) && MayTake(records, accounted, record, added)
    requires p in records && p != record.path
    ensures Holds(records[p], Assigned(accounted, added, record.id))
  {
    forall s | s in records[p].sessionIds ensures s !in added {
      assert s in accounted && accounted[s] == records[p].id;
    }
  }

  lemma StaysLocated(records: Accounts, accounted: map<string, string>, record: Record, added: seq<string>, s: string)
    requires Indexed(records, accounted) && MayTake(records, accounted, record, added)
    requires s in Assigned(accounted, added, record.id)
    ensures Located(records[record.path := record], s)
  {
    var after := records[record.path := record];
    if s in added {
      assert s in after[record.path].sessionIds;
    } else {
      assert Located(records, s);
      var p :| p in records && s in records[p].sessionIds;
      assert s in after[p].sessionIds;
    }
  }

  function Assigned(accounted: map<string, string>, added: seq<string>, holder: string): map<string, string> {
    accounted + map s | s in added :: holder
  }

  /** Every membership is kept, by the same record. */
  ghost predicate Keeps(before: Accounts, after: Accounts) {
    forall p :: p in before ==>
      p in after && after[p].id == before[p].id && forall s :: s in before[p].sessionIds ==> s in after[p].sessionIds
  }

  datatype Group = Group(path: string, ids: seq<string>, newestAt: int)

  /** What one group of headers adds: the account of its path if it has one, otherwise a new account for
      Sessions nobody holds, if there are any. */
  ghost predicate Added(before: Accounts, accountedBefore: map<string, string>, group: Group,
                        after: Accounts, accounted: map<string, string>)
  {
    if group.path in before then
      var record := before[group.path];
      var historical := Unclaimed(group.ids, accountedBefore, Some(record.id));
      && after.Keys == before.Keys && after[group.path].id == record.id
      && after[group.path].sessionIds == Followed(historical, record.sessionIds)
      && (forall p :: p in before && p != group.path ==> after[p] == before[p])
      && accounted == Assigned(accountedBefore, historical, record.id)
    else
      var free := Unclaimed(group.ids, accountedBefore, None);
      if free == [] then after == before && accounted == accountedBefore
      else
        && after.Keys == before.Keys + {group.path}
        && after[group.path].sessionIds == free
        && (forall p :: p in before ==> after[p] == before[p])
        && accounted == Assigned(accountedBefore, free, after[group.path].id)
  }

  /** Ids that nothing uses yet. */
  ghost predicate FreshIds(generated: nat -> Option<string>, used: nat, records: Accounts) {
    && (forall i: nat :: i >= used && generated(i).Some? ==> generated(i).value != "")
    && (forall i: nat, j: nat :: used <= i < j && generated(i).Some? ==> generated(i) != generated(j))
    && (forall i: nat, p :: i >= used && p in records ==> generated(i) != Some(records[p].id))
  }

  /** Some id cannot be generated. */
  ghost predicate RunsOut(generated: nat -> Option<string>) {
    exists i: nat :: generated(i).None?
  }

  /** What adding a group must achieve: the index stays right, nothing held is lost or moved, and every
      Session of the group is held. */
  ghost predicate Settled(before: Accounts, accountedBefore: map<string, string>, group: Group,
                          after: Accounts, accounted: map<string, string>)
  {
    && Indexed(after, accounted) && Keeps(before, after)
    && (forall s :: s in group.ids ==> s in accounted)
    && (forall s :: s in accountedBefore ==> s in accounted && accounted[s] == accountedBefore[s])
    && (forall s :: s in accounted && s !in accountedBefore ==> s in group.ids)
  }

  /** Adds one group to the accounts. */
  method AddGroup(records: Accounts, accounted: map<string, string>, group: Group, generated: nat -> Option<string>,
                  used: nat, now: int)
    returns (after: Accounts, index: map<string, string>, spent: nat, failed: bool)
    requires Indexed(records, accounted) && Distinct(group.ids) && group.path != ""
    requires FreshIds(generated, used, records)
    ensures failed <==>
              group.path !in records && Unclaimed(group.ids, accounted, None) != [] && generated(used).None?
    ensures !failed ==>
              && spent >= used && FreshIds(generated, spent, after)
              && Added(records, accounted, group, after, index)
              && Settled(records, accounted, group, after, index)
    ensures !failed && group.path in records ==>
              group.path in after && Touched(records[group.path], after[group.path], now)
    ensures !failed && group.path !in records && group.path in after ==>
              after[group.path].createdAt == after[group.path].updatedAt == group.newestAt
  {
    if group.path in records {
      after, index := ExtendAccount(records, accounted, group, now);
      return after, index, used, false;
    }
    after, index, spent, failed := NewAccount(records, accounted, group, generated, used);
  }

  /** A record changes only in the Sessions it lists, and is marked as updated exactly when they change. */
  predicate Touched(before: Record, after: Record, now: int) {
    after == before.(sessionIds := after.sessionIds,
                     updatedAt := if after.sessionIds == before.sessionIds then before.updatedAt else now)
  }

  /** Gives the account of a known directory the Sessions found for it. */
  method ExtendAccount(records: Accounts, accounted: map<string, string>, group: Group, now: int)
    returns (after: Accounts, index: map<string, string>)
    requires Indexed(records, accounted) && Distinct(group.ids) && group.path in records
    ensures Added(records, accounted, group, after, index)
    ensures Settled(records, accounted, group, after, index)
    ensures forall p :: p in after ==> p in records && after[p].id == records[p].id
    ensures group.path in after && Touched(records[group.path], after[group.path], now)
  {
    var record := records[group.path];
    assert Shaped(record, group.path);
    var historical := CollectUnclaimed(group.ids, accounted, Some(record.id));
    var sessionIds := CollectFollowed(historical, record.sessionIds);
    var updated := if record.sessionIds == sessionIds then record
                   else record.(sessionIds := sessionIds, updatedAt := now);
    ExtendedSettles(records, accounted, group, updated);
    return records[group.path := updated], Assigned(accounted, historical, record.id);
  }

  /** Opens an account for a new directory, if somebody is without one. */
  method NewAccount(records: Accounts, accounted: map<string, string>, group: Group, generated: nat -> Option<string>,
                    used: nat)
    returns (after: Accounts, index: map<string, string>, spent: nat, failed: bool)
    requires Indexed(records, accounted) && Distinct(group.ids) && group.path != "" && group.path !in records
    requires FreshIds(generated, used, records)
    ensures failed <==>
              group.path !in records && Unclaimed(group.ids, accounted, None) != [] && generated(used).None?
    ensures !failed ==>
              && spent >= used && FreshIds(generated, spent, after)
              && Added(records, accounted, group, after, index)
              && Settled(records, accounted, group, after, index)
    ensures !failed && group.path in after ==>
              after[group.path].createdAt == after[group.path].updatedAt == group.newestAt
  {
    var free := CollectUnclaimed(group.ids, accounted, None);
    if free == [] {
      NobodyFree(group.ids, accounted);
      return records, accounted, used, false;
    }
    var id := generated(used);
    if id.None? { return records, accounted, used, true; }
    var record := Record(id.value, group.path, free, group.newestAt, group.newestAt);
    NewAccountSettles(records, accounted, group, record);
    return records[group.path := record], Assigned(accounted, free, id.value), used + 1, false;
  }

  lemma NewAccountSettles(records: Accounts, accounted: map<string, string>, group: Group, record: Record)
    requires Indexed(records, accounted) && Distinct(group.ids) && group.path != "" && group.path !in records
    requires record.id != "" && record.path == group.path
    requires record.sessionIds == Unclaimed(group.ids, accounted, None)
    requires forall p :: p in records ==> records[p].id != record.id
    ensures Settled(records, accounted, group, records[group.path := record],
                    Assigned(accounted, record.sessionIds, record.id))
  {
    UnclaimedHas(group.ids, accounted, None);
    assert MayTake(records, accounted, record, record.sessionIds);
    AssignKeepsIndex(records, accounted, record, record.sessionIds);
  }

  lemma ExtendedSettles(records: Accounts, accounted: map<string, string>, group: Group, record: Record)
    requires Indexed(records, accounted) && Distinct(group.ids) && group.path in records
    requires record.id == records[group.path].id && record.path == group.path
    requires record.sessionIds == Followed(Unclaimed(group.ids, accounted, Some(record.id)),
                                          records[group.path].sessionIds)
    ensures Settled(records, accounted, group, records[group.path := record],
                    Assigned(accounted, Unclaimed(group.ids, accounted, Some(record.id)), record.id))
  {
    var historical := Unclaimed(group.ids, accounted, Some(record.id));
    UnclaimedHas(group.ids, accounted, Some(record.id));
    FollowedHas(historical, records[group.path].sessionIds);
    assert Shaped(records[group.path], group.path);
    AssignKeepsIndex(records, accounted, record, historical);
  }

  lemma NobodyFree(ids: seq<string>, accounted: map<string, string>)
    requires Unclaimed(ids, accounted, None) == []
    ensures forall s :: s in ids ==> s in accounted
  {
    UnclaimedHas(ids, accounted, None);
    forall s | s in ids ensures s in accounted {
      assert s !in accounted ==> s in Unclaimed(ids, accounted, None);
    }
  }

  /* ----- groups ----- */

  predicate InGroup(h: Header, paths: map<string, string>, path: string) {
    h.id in paths && paths[h.id] == path
  }

  /** Newest first; among equals by id. */
  predicate HeaderBefore(a: Header, b: Header) {
    if a.createdAt != b.createdAt then a.createdAt > b.createdAt else Less(a.id, b.id)
  }

  predicate GroupBefore(a: Group, b: Group) {
    if a.newestAt != b.newestAt then a.newestAt > b.newestAt else Less(a.path, b.path)
  }

  ghost predicate DistinctHeaders(headers: set<Header>) {
    forall a, b :: a in headers && b in headers && a.id == b.id ==> a == b
  }

  lemma HeadersAreOrdered(headers: set<Header>)
    requires DistinctHeaders(headers)
    ensures StrictTotal(headers, HeaderBefore)
  {
    forall a | a in headers ensures !HeaderBefore(a, a) { LessIrreflexive(a.id); }
    forall a, b | a in headers && b in headers ensures a == b || HeaderBefore(a, b) || HeaderBefore(b, a) {
      LessTotal(a.id, b.id);
    }
    forall a, b, c | a in headers && b in headers && c in headers && HeaderBefore(a, b) && HeaderBefore(b, c)
      ensures HeaderBefore(a, c)
    {
      if a.createdAt == b.createdAt == c.createdAt { LessTransitive(a.id, b.id, c.id); }
    }
  }

  lemma GroupsAreOrdered(groups: set<Group>)
    requires forall a, b :: a in groups && b in groups && a.path == b.path ==> a == b
    ensures StrictTotal(groups, GroupBefore)
  {
    forall a | a in groups ensures !GroupBefore(a, a) { LessIrreflexive(a.path); }
    forall a, b | a in groups && b in groups ensures a == b || GroupBefore(a, b) || GroupBefore(b, a) {
      LessTotal(a.path, b.path);
    }
    forall a, b, c | a in groups && b in groups && c in groups && GroupBefore(a, b) && GroupBefore(b, c)
      ensures GroupBefore(a, c)
    {
      if a.newestAt == b.newestAt == c.newestAt { LessTransitive(a.path, b.path, c.path); }
    }
  }

  /** A group holds exactly the Sessions of its directory, each once, newest first and then by id. */
  ghost predicate GroupOf(group: Group, headers: set<Header>, paths: map<string, string>) {
    && group.path != "" && Distinct(group.ids)
    && (forall h :: h in headers && InGroup(h, paths, group.path) ==> h.id in group.ids)
    && (forall s :: s in group.ids ==> exists h :: h in headers && h.id == s && InGroup(h, paths, group.path))
    && (exists listed :: Listing(listed, headers, paths, group.path) && group == GroupOfHeaders(group.path, listed))
  }

  /** The headers of one directory in order. */
  ghost predicate Listing(listed: seq<Header>, headers: set<Header>, paths: map<string, string>, path: string) {
    && listed != [] && SortedBy(listed, HeaderBefore)
    && forall h :: h in listed <==> h in headers && InGroup(h, paths, path)
  }

  function GroupOfHeaders(path: string, listed: seq<Header>): Group
    requires listed != []
  {
    Group(path, seq(|listed|, i requires 0 <= i < |listed| => listed[i].id), listed[0].createdAt)
  }

  method BuildGroup(path: string, headers: set<Header>, paths: map<string, string>) returns (group: Group)
    requires DistinctHeaders(headers) && path != "" && exists h :: h in headers && InGroup(h, paths, path)
    ensures group.path == path && GroupOf(group, headers, paths)
  {
    var members := set h | h in headers && InGroup(h, paths, path);
    HeadersAreOrdered(members);
    var listed := SortBy(members, HeaderBefore);
    SortedIsDistinct(listed, members, HeaderBefore);
    var some :| some in headers && InGroup(some, paths, path);
    assert some in members;
    ListedIsGroup(headers, paths, path, listed);
    group := GroupOfHeaders(path, listed);
  }

  lemma ListedIsGroup(headers: set<Header>, paths: map<string, string>, path: string, listed: seq<Header>)
    requires DistinctHeaders(headers) && path != "" && Listing(listed, headers, paths, path)
    requires forall i, j :: 0 <= i < j < |listed| ==> listed[i] != listed[j]
    ensures GroupOf(GroupOfHeaders(path, listed), headers, paths)
  {
    var ids := GroupOfHeaders(path, listed).ids;
    forall i, j | 0 <= i < j < |ids| ensures ids[i] != ids[j] {
      assert listed[i] in listed && listed[j] in listed && listed[i] != listed[j];
    }
    forall h | h in headers && InGroup(h, paths, path) ensures h.id in ids {
      assert h in listed;
      var i :| 0 <= i < |listed| && listed[i] == h;
      assert ids[i] == h.id;
    }
    forall s | s in ids ensures exists h :: h in headers && h.id == s && InGroup(h, paths, path) {
      var i :| 0 <= i < |ids| && ids[i] == s;
      assert listed[i] in listed;
    }
  }

  ghost predicate HasPath(groups: set<Group>, path: string) {
    exists g :: g in groups && g.path == path
  }

  lemma HasPathGrows(groups: set<Group>, group: Group)
    ensures HasPath(groups + {group}, group.path)
    ensures forall p :: HasPath(groups, p) ==> HasPath(groups + {group}, p)
  {
    assert group in groups + {group};
    forall p | HasPath(groups, p) ensures HasPath(groups + {group}, p) {
      var g :| g in groups && g.path == p;
      assert g in groups + {group};
    }
  }

  /** One group for every directory a header names. */
  ghost predicate AllGroups(groups: set<Group>, headers: set<Header>, paths: map<string, string>, named: set<string>) {
    && (forall g :: g in groups ==> g.path in named && GroupOf(g, headers, paths))
    && (forall a, b :: a in groups && b in groups && a.path == b.path ==> a == b)
    && (forall p :: p in named ==> HasPath(groups, p))
  }

  lemma AddedToAll(groups: set<Group>, headers: set<Header>, paths: map<string, string>, named: set<string>,
                   group: Group)
    requires AllGroups(groups, headers, paths, named)
    requires group.path !in named && GroupOf(group, headers, paths)
    ensures AllGroups(groups + {group}, headers, paths, named + {group.path})
  {
    hide GroupOf;
    HasPathGrows(groups, group);
  }

  lemma NoGroups(headers: set<Header>, paths: map<string, string>)
    ensures AllGroups({}, headers, paths, {})
  {
  }

  method CollectGroups(headers: set<Header>, paths: map<string, string>, named: set<string>) returns (built: set<Group>)
    requires DistinctHeaders(headers)
    requires forall p :: p in named ==> p != "" && exists h :: h in headers && InGroup(h, paths, p)
    ensures AllGroups(built, headers, paths, named)
  {
    hide GroupOf, AllGroups;
    built := {};
    assert AllGroups(built, headers, paths, {}) by { NoGroups(headers, paths); }
    assert named - named == {};
    var rest := named;
    while rest != {}
      invariant rest <= named && AllGroups(built, headers, paths, named - rest)
      decreases |rest|
    {
      var path :| path in rest;
      var group := BuildGroup(path, headers, paths);
      AddedToAll(built, headers, paths, named - rest, group);
      built := built + {group};
      assert (named - rest) + {path} == named - (rest - {path});
      rest := rest - {path};
    }
    assert named - rest == named;
  }

  ghost predicate DistinctPaths(groups: seq<Group>) {
    forall i, j :: 0 <= i < j < |groups| ==> groups[i].path != groups[j].path
  }

  predicate HasDirectory(h: Header, paths: map<string, string>) {
    h.id in paths && paths[h.id] != ""
  }

  /** A group lists its Sessions from the newest to the oldest, and of equals by id. */
  ghost predicate NewestFirst(group: Group, headers: set<Header>) {
    forall a, b, i, j :: a in headers && b in headers && 0 <= i < j < |group.ids|
                         && group.ids[i] == a.id && group.ids[j] == b.id ==>
      a.createdAt > b.createdAt || (a.createdAt == b.createdAt && Less(a.id, b.id))
  }

  lemma ListedNewestFirst(group: Group, headers: set<Header>, paths: map<string, string>)
    requires DistinctHeaders(headers) && GroupOf(group, headers, paths)
    ensures NewestFirst(group, headers)
  {
    var listed :| Listing(listed, headers, paths, group.path) && group == GroupOfHeaders(group.path, listed);
    forall a, b, i, j | a in headers && b in headers && 0 <= i < j < |group.ids|
                        && group.ids[i] == a.id && group.ids[j] == b.id
      ensures a.createdAt > b.createdAt || (a.createdAt == b.createdAt && Less(a.id, b.id))
    {
      assert listed[i] in listed && listed[j] in listed;
      assert HeaderBefore(listed[i], listed[j]);
    }
  }

  /** The groups of all headers that have a directory, newest first. */
  method BuildGroups(headers: set<Header>, paths: map<string, string>) returns (groups: seq<Group>)
    requires DistinctHeaders(headers)
    ensures forall k :: 0 <= k < |groups| ==> GroupOf(groups[k], headers, paths)
    ensures forall h :: h in headers && HasDirectory(h, paths) ==>
              exists k :: 0 <= k < |groups| && groups[k].path == paths[h.id]
    ensures forall k :: 0 <= k < |groups| ==> NewestFirst(groups[k], headers)
    ensures forall i, j :: 0 <= i < j < |groups| ==>
              groups[i].newestAt > groups[j].newestAt
              || (groups[i].newestAt == groups[j].newestAt && Less(groups[i].path, groups[j].path))
    ensures DistinctPaths(groups)
  {
    hide GroupOf, NewestFirst;
    var named := set h | h in headers && HasDirectory(h, paths) :: paths[h.id];
    forall p | p in named ensures p != "" && exists h :: h in headers && InGroup(h, paths, p) {
      var h :| h in headers && HasDirectory(h, paths) && paths[h.id] == p;
      assert InGroup(h, paths, p);
    }
    var built := CollectGroups(headers, paths, named);
    GroupsAreOrdered(built);
    groups := SortBy(built, GroupBefore);
    SortedIsDistinct(groups, built, GroupBefore);
    forall k | 0 <= k < |groups| ensures GroupOf(groups[k], headers, paths) && NewestFirst(groups[k], headers) {
      assert groups[k] in groups;
      ListedNewestFirst(groups[k], headers, paths);
    }
    forall i, j | 0 <= i < j < |groups|
      ensures groups[i].newestAt > groups[j].newestAt
              || (groups[i].newestAt == groups[j].newestAt && Less(groups[i].path, groups[j].path))
    {
      assert GroupBefore(groups[i], groups[j]);
    }
    forall h | h in headers && HasDirectory(h, paths)
      ensures exists k :: 0 <= k < |groups| && groups[k].path == paths[h.id]
    {
      assert paths[h.id] in named && HasPath(built, paths[h.id]);
      var g :| g in built && g.path == paths[h.id];
      assert g in groups;
    }
  }

  /* ----- order of records ----- */

  function RankOf(record: Record, rank: map<string, int>): int {
    if record.path in rank then rank[record.path] else record.createdAt
  }

  /** Some Session header names the directory. */
  ghost predicate Used(headers: set<Header>, paths: map<string, string>, path: string) {
    path != "" && exists h :: h in headers && InGroup(h, paths, path)
  }

  /** When the newest Session of a directory was created. */
  ghost predicate Newest(headers: set<Header>, paths: map<string, string>, path: string, at: int) {
    && (exists h :: h in headers && InGroup(h, paths, path) && h.createdAt == at)
    && (forall h :: h in headers && InGroup(h, paths, path) ==> h.createdAt <= at)
  }

  /** Every directory that is used ranks by its newest Session. */
  ghost predicate RanksUse(rank: map<string, int>, headers: set<Header>, paths: map<string, string>) {
    && (forall p :: p in rank <==> Used(headers, paths, p))
    && (forall p :: p in rank ==> Newest(headers, paths, p, rank[p]))
  }

  /** When a record was last used: when the newest Session of its directory was created, or else the record itself. */
  ghost predicate LastUsed(headers: set<Header>, paths: map<string, string>, record: Record, at: int) {
    if Used(headers, paths, record.path) then Newest(headers, paths, record.path, at) else at == record.createdAt
  }

  /** One id had its place before another: only it had one, or an earlier one, or neither had and it sorts first. */
  ghost predicate PlacedBefore(ids: seq<string>, a: string, b: string) {
    || (a in ids && b !in ids)
    || (exists i, j :: 0 <= i < j < |ids| && ids[i] == a && ids[j] == b)
    || (a !in ids && b !in ids && Less(a, b))
  }

  /** The records stand in display order: the last used first, and of equals as they were placed before. */
  ghost predicate Displayed(records: seq<Record>, headers: set<Header>, paths: map<string, string>,
                            workspaceIds: seq<string>)
  {
    forall i, j, a, b :: 0 <= i < j < |records|
                         && LastUsed(headers, paths, records[i], a) && LastUsed(headers, paths, records[j], b) ==>
      a > b || (a == b && PlacedBefore(workspaceIds, records[i].id, records[j].id))
  }

  /** Most recent first; then those that had a place before, in that order; then by id. */
  predicate RecordBefore(rank: map<string, int>, prior: map<string, int>, a: Record, b: Record) {
    if RankOf(a, rank) != RankOf(b, rank) then RankOf(a, rank) > RankOf(b, rank)
    else if (a.id in prior) != (b.id in prior) then a.id in prior
    else if a.id in prior && prior[a.id] != prior[b.id] then prior[a.id] < prior[b.id]
    else Less(a.id, b.id)
  }

  lemma RecordsAreOrdered(rank: map<string, int>, prior: map<string, int>, records: set<Record>)
    requires forall a, b :: a in records && b in records && a.id == b.id ==> a == b
    ensures StrictTotal(records, (a, b) => RecordBefore(rank, prior, a, b))
  {
    forall a | a in records ensures !RecordBefore(rank, prior, a, a) { LessIrreflexive(a.id); }
    forall a, b | a in records && b in records
      ensures a == b || RecordBefore(rank, prior, a, b) || RecordBefore(rank, prior, b, a)
    {
      LessTotal(a.id, b.id);
    }
    forall a, b, c | a in records && b in records && c in records
                     && RecordBefore(rank, prior, a, b) && RecordBefore(rank, prior, b, c)
      ensures RecordBefore(rank, prior, a, c)
    {
      RecordOrderIsTransitive(rank, prior, a, b, c);
    }
  }

  lemma RecordOrderIsTransitive(rank: map<string, int>, prior: map<string, int>, a: Record, b: Record, c: Record)
    requires RecordBefore(rank, prior, a, b) && RecordBefore(rank, prior, b, c)
    ensures RecordBefore(rank, prior, a, c)
  {
    if Less(a.id, b.id) && Less(b.id, c.id) { LessTransitive(a.id, b.id, c.id); }
  }

  /* ----- bootstrap ----- */

  /** Indexes the stored records by path and their Sessions by holder. */
  method Load(stored: Stored) returns (records: Accounts, accounted: map<string, string>)
    requires ValidState(stored)
    ensures Indexed(records, accounted) && Describes(records, stored)
  {
    records, accounted := map[], map[];
    for i := 0 to |stored.records|
      invariant Indexed(records, accounted)
      invariant forall k :: 0 <= k < i ==>
                  stored.records[k].path in records && records[stored.records[k].path] == stored.records[k]
      invariant forall p :: p in records ==> exists k :: 0 <= k < i && records[p] == stored.records[k]
    {
      var record := stored.records[i];
      NextRecordIsNew(stored, i, records, accounted);
      AssignKeepsIndex(records, accounted, record, record.sessionIds);
      records := records[record.path := record];
      accounted := Assigned(accounted, record.sessionIds, record.id);
    }
  }

  lemma NextRecordIsNew(stored: Stored, i: nat, records: Accounts, accounted: map<string, string>)
    requires ValidState(stored) && i < |stored.records| && Indexed(records, accounted)
    requires forall p :: p in records ==> exists k :: 0 <= k < i && records[p] == stored.records[k]
    ensures Shaped(stored.records[i], stored.records[i].path)
    ensures stored.records[i].path !in records
    ensures MayTake(records, accounted, stored.records[i], stored.records[i].sessionIds)
  {
    var record := stored.records[i];
    forall p | p in records
      ensures records[p].id != record.id && p != record.path
      ensures forall s :: s in record.sessionIds ==> s !in records[p].sessionIds
    {
      var k :| 0 <= k < i && records[p] == stored.records[k];
      assert DisjointAccounts(record, stored.records[k]) && Shaped(records[p], p);
    }
    forall s | s in record.sessionIds ensures s !in accounted {
      assert s in accounted ==> Located(records, s);
    }
  }

  /** Every membership was stored, or comes from a header of that directory. */
  ghost predicate Explained(initial: Accounts, headers: set<Header>, paths: map<string, string>, records: Accounts) {
    forall p, s :: p in records && s in records[p].sessionIds ==> FromHere(initial, headers, paths, p, s)
  }

  ghost predicate FromHere(initial: Accounts, headers: set<Header>, paths: map<string, string>,
                           path: string, s: string)
  {
    || (path in initial && s in initial[path].sessionIds)
    || (exists h :: h in headers && h.id == s && InGroup(h, paths, path))
  }

  lemma GroupStaysExplained(initial: Accounts, headers: set<Header>, paths: map<string, string>,
                            records: Accounts, accounted: map<string, string>, group: Group,
                            after: Accounts, index: map<string, string>)
    requires Explained(initial, headers, paths, records) && GroupOf(group, headers, paths)
    requires Added(records, accounted, group, after, index)
    ensures Explained(initial, headers, paths, after)
  {
    forall p, s | p in after && s in after[p].sessionIds ensures FromHere(initial, headers, paths, p, s) {
      if p == group.path {
        if p in records {
          UnclaimedHas(group.ids, accounted, Some(records[p].id));
          FollowedHas(Unclaimed(group.ids, accounted, Some(records[p].id)), records[p].sessionIds);
        } else {
          UnclaimedHas(group.ids, accounted, None);
        }
      }
    }
  }

  lemma KeepsThrough(a: Accounts, b: Accounts, c: Accounts)
    requires Keeps(a, b) && Keeps(b, c)
    ensures Keeps(a, c)
  {
  }

  /** What holds after every group: the index is right, nothing stored is lost, nothing is unexplained. */
  ghost predicate Progress(initial: Accounts, headers: set<Header>, paths: map<string, string>,
                           records: Accounts, accounted: map<string, string>)
  {
    Indexed(records, accounted) && Keeps(initial, records) && Explained(initial, headers, paths, records)
  }

  ghost predicate AllHeld(groups: seq<Group>, n: nat, accounted: map<string, string>)
    requires n <= |groups|
  {
    forall k, s :: 0 <= k < n && s in groups[k].ids ==> s in accounted
  }

  lemma GroupProgress(initial: Accounts, headers: set<Header>, paths: map<string, string>, groups: seq<Group>, k: nat,
                      records: Accounts, accounted: map<string, string>, after: Accounts, index: map<string, string>)
    requires Progress(initial, headers, paths, records, accounted) && k < |groups| && AllHeld(groups, k, accounted)
    requires GroupOf(groups[k], headers, paths)
    requires Added(records, accounted, groups[k], after, index) && Settled(records, accounted, groups[k], after, index)
    ensures Progress(initial, headers, paths, after, index) && AllHeld(groups, k + 1, index)
  {
    GroupStaysExplained(initial, headers, paths, records, accounted, groups[k], after, index);
    KeepsThrough(initial, records, after);
  }

  /** Adds all groups. */
  method AddGroups(initial: Accounts, start: map<string, string>, groups: seq<Group>, ghost headers: set<Header>,
                   ghost paths: map<string, string>, generated: nat -> Option<string>, now: int)
    returns (records: Accounts, ghost accounted: map<string, string>, failed: bool)
    requires Indexed(initial, start) && FreshIds(generated, 0, initial)
    requires forall k :: 0 <= k < |groups| ==> GroupOf(groups[k], headers, paths)
    ensures !failed ==> Progress(initial, headers, paths, records, accounted) && AllHeld(groups, |groups|, accounted)
    ensures failed ==> RunsOut(generated)
  {
    records, failed := initial, false;
    var held := start;
    var used := 0;
    for k := 0 to |groups|
      invariant Progress(initial, headers, paths, records, held) && AllHeld(groups, k, held)
      invariant FreshIds(generated, used, records)
    {
      var after, index, spent, refused := AddGroup(records, held, groups[k], generated, used, now);
      if refused { return records, held, true; }
      GroupProgress(initial, headers, paths, groups, k, records, held, after, index);
      records, held, used := after, index, spent;
    }
    accounted := held;
  }

  /** The same record, with everything it held. */
  ghost predicate KeepsRecord(before: Record, after: Record) {
    && after.id == before.id && after.path == before.path
    && forall s :: s in before.sessionIds ==> s in after.sessionIds
  }

  ghost predicate Accounted(stored: Stored, s: string) {
    exists i :: 0 <= i < |stored.records| && s in stored.records[i].sessionIds
  }

  /** Where a membership comes from. */
  ghost predicate Justified(stored: Stored, headers: set<Header>, paths: map<string, string>, path: string, s: string) {
    || (exists i :: 0 <= i < |stored.records| && stored.records[i].path == path && s in stored.records[i].sessionIds)
    || (exists h :: h in headers && h.id == s && InGroup(h, paths, path))
  }

  /** The list holds exactly the records of the accounts, once each. */
  ghost predicate ListsAccounts(ordered: seq<Record>, records: Accounts) {
    && (forall r :: r in ordered <==> r.path in records && records[r.path] == r)
    && (forall i, j :: 0 <= i < j < |ordered| ==> ordered[i] != ordered[j])
  }

  lemma ListedIsValid(ordered: seq<Record>, records: Accounts, accounted: map<string, string>, archived: seq<string>)
    requires Indexed(records, accounted) && ListsAccounts(ordered, records)
    ensures ValidState(Stored(true, IdsOf(ordered), archived, ordered))
  {
    forall i | 0 <= i < |ordered| ensures Shaped(ordered[i], ordered[i].path) && Holds(ordered[i], accounted) {
      assert ordered[i] in ordered;
    }
    forall i, j | 0 <= i < |ordered| && 0 <= j < |ordered| && i != j ensures DisjointAccounts(ordered[i], ordered[j]) {
      assert ordered[i] in ordered && ordered[j] in ordered && ordered[i] != ordered[j];
    }
    forall k | 0 <= k < |ordered| ensures Names(ordered, IdsOf(ordered)[k]) {
      assert ordered[k].id == IdsOf(ordered)[k];
    }
    forall i, j | 0 <= i < j < |ordered| ensures IdsOf(ordered)[i] != IdsOf(ordered)[j] {
      assert DisjointAccounts(ordered[i], ordered[j]);
    }
  }

  function IdsOf(records: seq<Record>): seq<string> {
    seq(|records|, i requires 0 <= i < |records| => records[i].id)
  }

  /** The accounts a stored state describes. */
  ghost predicate Describes(initial: Accounts, stored: Stored) {
    && (forall i :: 0 <= i < |stored.records| ==>
          stored.records[i].path in initial && initial[stored.records[i].path] == stored.records[i])
    && (forall p :: p in initial ==> initial[p] in stored.records && initial[p].path == p)
  }

  ghost predicate KeptIn(record: Record, records: seq<Record>) {
    exists j :: 0 <= j < |records| && KeepsRecord(record, records[j])
  }

  lemma ListedKeeps(stored: Stored, initial: Accounts, records: Accounts, accounted: map<string, string>,
                    ordered: seq<Record>)
    requires Describes(initial, stored) && Keeps(initial, records) && Indexed(records, accounted)
    requires ListsAccounts(ordered, records)
    ensures forall i :: 0 <= i < |stored.records| ==> KeptIn(stored.records[i], ordered)
  {
    forall i | 0 <= i < |stored.records| ensures KeptIn(stored.records[i], ordered) {
      var after := records[stored.records[i].path];
      assert Shaped(after, stored.records[i].path);
      assert after in ordered;
      var j :| 0 <= j < |ordered| && ordered[j] == after;
      assert KeepsRecord(stored.records[i], ordered[j]);
    }
  }

  lemma ListedAccounts(result: Stored, records: Accounts, accounted: map<string, string>, s: string)
    requires Indexed(records, accounted) && ListsAccounts(result.records, records) && s in accounted
    ensures Accounted(result, s)
  {
    assert Located(records, s);
    var p :| p in records && s in records[p].sessionIds;
    assert Shaped(records[p], p);
    assert records[p] in result.records;
    var i :| 0 <= i < |result.records| && result.records[i] == records[p];
  }

  lemma ListedIsJustified(stored: Stored, initial: Accounts, headers: set<Header>, paths: map<string, string>,
                          records: Accounts, ordered: seq<Record>, j: nat, s: string)
    requires Describes(initial, stored) && Explained(initial, headers, paths, records)
    requires ListsAccounts(ordered, records) && j < |ordered| && s in ordered[j].sessionIds
    ensures Justified(stored, headers, paths, ordered[j].path, s)
  {
    var p := ordered[j].path;
    assert ordered[j] in ordered;
    assert FromHere(initial, headers, paths, p, s);
    if p in initial && s in initial[p].sessionIds {
      assert initial[p] in stored.records;
      var i :| 0 <= i < |stored.records| && stored.records[i] == initial[p];
      assert stored.records[i].path == p;
    }
  }

  /** No stored record uses an id that will be generated; generated ids are named and distinct. */
  ghost predicate FreshFor(generated: nat -> Option<string>, stored: Stored) {
    && (forall i: nat :: generated(i).Some? ==> generated(i).value != "")
    && (forall i: nat, j: nat :: i < j && generated(i).Some? ==> generated(i) != generated(j))
    && (forall i: nat, k :: 0 <= k < |stored.records| ==> generated(i) != Some(stored.records[k].id))
  }

  /** What a first durable state must be: valid, so accounts stay disjoint and the order names every record
      once; nothing stored is lost, every header with a directory is accounted, and nothing else is; the records
      stand in display order. */
  ghost predicate Bootstrapped(stored: Stored, headers: set<Header>, paths: map<string, string>, result: Stored) {
    && result.initialized && result.archived == stored.archived && ValidState(result)
    && (forall i :: 0 <= i < |stored.records| ==> KeptIn(stored.records[i], result.records))
    && (forall h :: h in headers && HasDirectory(h, paths) ==> Accounted(result, h.id))
    && (forall j, s :: 0 <= j < |result.records| && s in result.records[j].sessionIds ==>
          Justified(stored, headers, paths, result.records[j].path, s))
    && Displayed(result.records, headers, paths, stored.workspaceIds)
  }

  lemma EverythingHeld(headers: set<Header>, paths: map<string, string>, groups: seq<Group>,
                       accounted: map<string, string>)
    requires forall k :: 0 <= k < |groups| ==> GroupOf(groups[k], headers, paths)
    requires forall h :: h in headers && HasDirectory(h, paths) ==>
               exists k :: 0 <= k < |groups| && groups[k].path == paths[h.id]
    requires AllHeld(groups, |groups|, accounted)
    ensures forall h :: h in headers && HasDirectory(h, paths) ==> h.id in accounted
  {
    forall h | h in headers && HasDirectory(h, paths) ensures h.id in accounted {
      var k :| 0 <= k < |groups| && groups[k].path == paths[h.id];
      assert InGroup(h, paths, groups[k].path);
    }
  }

  lemma BootstrapHolds(stored: Stored, initial: Accounts, headers: set<Header>, paths: map<string, string>,
                       records: Accounts, accounted: map<string, string>, result: Stored)
    requires Describes(initial, stored) && Progress(initial, headers, paths, records, accounted)
    requires forall h :: h in headers && HasDirectory(h, paths) ==> h.id in accounted
    requires ListsAccounts(result.records, records) && Displayed(result.records, headers, paths, stored.workspaceIds)
    requires result == Stored(true, IdsOf(result.records), stored.archived, result.records)
    ensures Bootstrapped(stored, headers, paths, result)
  {
    ListedIsValid(result.records, records, accounted, stored.archived);
    ListedKeeps(stored, initial, records, accounted, result.records);
    forall h | h in headers && HasDirectory(h, paths) ensures Accounted(result, h.id) {
      ListedAccounts(result, records, accounted, h.id);
    }
    forall j, s | 0 <= j < |result.records| && s in result.records[j].sessionIds
      ensures Justified(stored, headers, paths, result.records[j].path, s)
    {
      ListedIsJustified(stored, initial, headers, paths, records, result.records, j, s);
    }
  }

  /** Builds the first durable state from what is stored and every Session header. */
  method Bootstrap(stored: Stored, headers: set<Header>, paths: map<string, string>,
                   generated: nat -> Option<string>, now: int) returns (result: Option<Stored>)
    requires ValidState(stored) && DistinctHeaders(headers) && FreshFor(generated, stored)
    ensures result.Some? ==> Bootstrapped(stored, headers, paths, result.value)
    ensures result.None? ==> RunsOut(generated)
  {
    var initial, start := Load(stored);
    assert FreshIds(generated, 0, initial);
    var groups := BuildGroups(headers, paths);
    var records, accounted, failed := AddGroups(initial, start, groups, headers, paths, generated, now);
    if failed { return None; }
    var ordered := OrderRecords(records, accounted, groups, stored.workspaceIds);
    EverythingHeld(headers, paths, groups, accounted);
    RanksFollowUse(groups, headers, paths);
    SortedIsDisplayed(ordered, Ranks(groups), headers, paths, stored.workspaceIds);
    var built := Stored(true, IdsOf(ordered), stored.archived, ordered);
    BootstrapHolds(stored, initial, headers, paths, records, accounted, built);
    return Some(built);
  }

  lemma {:induction false} PlacesAre(ids: seq<string>)
    requires Distinct(ids)
    ensures forall id :: id in Places(ids) <==> id in ids
    ensures forall k :: 0 <= k < |ids| ==> Places(ids)[ids[k]] == k
  {
    if ids != [] {
      var k := |ids| - 1;
      PlacesAre(ids[..k]);
      assert forall id :: id in ids <==> id in ids[..k] || id == ids[k];
      forall i | 0 <= i < k ensures Places(ids)[ids[i]] == i {
        assert ids[..k][i] == ids[i];
      }
    }
  }

  /** Sorted by rank and earlier place, records stand in display order. */
  lemma SortedIsDisplayed(records: seq<Record>, rank: map<string, int>, headers: set<Header>,
                          paths: map<string, string>, ids: seq<string>)
    requires RanksUse(rank, headers, paths) && Distinct(ids)
    requires SortedBy(records, (a, b) => RecordBefore(rank, Places(ids), a, b))
    ensures Displayed(records, headers, paths, ids)
  {
    PlacesAre(ids);
    forall i, j, a, b | 0 <= i < j < |records|
                        && LastUsed(headers, paths, records[i], a) && LastUsed(headers, paths, records[j], b)
      ensures a > b || (a == b && PlacedBefore(ids, records[i].id, records[j].id))
    {
      RankIsLastUse(records[i], rank, headers, paths, a);
      RankIsLastUse(records[j], rank, headers, paths, b);
      assert RecordBefore(rank, Places(ids), records[i], records[j]);
      BeforeIsPlaced(rank, ids, records[i], records[j]);
    }
  }

  lemma RankIsLastUse(record: Record, rank: map<string, int>, headers: set<Header>, paths: map<string, string>, at: int)
    requires RanksUse(rank, headers, paths) && LastUsed(headers, paths, record, at)
    ensures RankOf(record, rank) == at
  {
  }

  lemma BeforeIsPlaced(rank: map<string, int>, ids: seq<string>, a: Record, b: Record)
    requires Distinct(ids) && RecordBefore(rank, Places(ids), a, b)
    requires (forall id :: id in Places(ids) <==> id in ids) && forall k :: 0 <= k < |ids| ==> Places(ids)[ids[k]] == k
    ensures RankOf(a, rank) > RankOf(b, rank)
            || (RankOf(a, rank) == RankOf(b, rank) && (a.id != b.id ==> PlacedBefore(ids, a.id, b.id)))
    ensures RankOf(a, rank) == RankOf(b, rank) ==> a.id != b.id
  {
    hide Places;
    LessIrreflexive(a.id);
    if a.id in ids && b.id in ids {
      var i :| 0 <= i < |ids| && ids[i] == a.id;
      var j :| 0 <= j < |ids| && ids[j] == b.id;
    }
  }

  /** Lists the records in display order. */
  method OrderRecords(records: Accounts, ghost accounted: map<string, string>, groups: seq<Group>,
                      workspaceIds: seq<string>)
    returns (ordered: seq<Record>)
    requires Indexed(records, accounted)
    ensures ListsAccounts(ordered, records)
    ensures SortedBy(ordered, (a, b) => RecordBefore(Ranks(groups), Places(workspaceIds), a, b))
  {
    var rank, prior := Ranks(groups), Places(workspaceIds);
    var all := set p | p in records :: records[p];
    forall p | p in records ensures Shaped(records[p], p) {}
    RecordsAreOrdered(rank, prior, all);
    ordered := SortBy(all, (a, b) => RecordBefore(rank, prior, a, b));
    SortedIsDistinct(ordered, all, (a, b) => RecordBefore(rank, prior, a, b));
  }

  /** When each directory was last used. */
  function Ranks(groups: seq<Group>): map<string, int> {
    if groups == [] then map[]
    else Ranks(groups[..|groups| - 1])[groups[|groups| - 1].path := groups[|groups| - 1].newestAt]
  }

  lemma {:induction false} RanksAre(groups: seq<Group>)
    requires DistinctPaths(groups)
    ensures forall k :: 0 <= k < |groups| ==>
              groups[k].path in Ranks(groups) && Ranks(groups)[groups[k].path] == groups[k].newestAt
    ensures forall p :: p in Ranks(groups) ==> exists k :: 0 <= k < |groups| && groups[k].path == p
  {
    if groups != [] {
      RanksAre(groups[..|groups| - 1]);
      forall p | p in Ranks(groups) ensures exists k :: 0 <= k < |groups| && groups[k].path == p {
        if p != groups[|groups| - 1].path {
          assert p in Ranks(groups[..|groups| - 1]);
        }
      }
    }
  }

  lemma FirstIsNewest(group: Group, headers: set<Header>, paths: map<string, string>)
    requires GroupOf(group, headers, paths)
    ensures Used(headers, paths, group.path) && Newest(headers, paths, group.path, group.newestAt)
  {
    var listed :| Listing(listed, headers, paths, group.path) && group == GroupOfHeaders(group.path, listed);
    assert listed[0] in listed;
    forall h | h in headers && InGroup(h, paths, group.path) ensures h.createdAt <= group.newestAt {
      var i :| 0 <= i < |listed| && listed[i] == h;
      assert i == 0 || HeaderBefore(listed[0], listed[i]);
    }
  }

  lemma UsedHasGroup(groups: seq<Group>, headers: set<Header>, paths: map<string, string>, p: string)
    requires Used(headers, paths, p)
    requires forall h :: h in headers && HasDirectory(h, paths) ==>
               exists k :: 0 <= k < |groups| && groups[k].path == paths[h.id]
    ensures exists k :: 0 <= k < |groups| && groups[k].path == p
  {
    var h :| h in headers && InGroup(h, paths, p);
    assert HasDirectory(h, paths);
  }

  /** The groups rank every directory by its newest Session. */
  lemma RanksFollowUse(groups: seq<Group>, headers: set<Header>, paths: map<string, string>)
    requires DistinctPaths(groups) && forall k :: 0 <= k < |groups| ==> GroupOf(groups[k], headers, paths)
    requires forall h :: h in headers && HasDirectory(h, paths) ==>
               exists k :: 0 <= k < |groups| && groups[k].path == paths[h.id]
    ensures RanksUse(Ranks(groups), headers, paths)
  {
    hide GroupOf, Used, Newest, Ranks;
    RanksAre(groups);
    forall p | p in Ranks(groups) ensures Used(headers, paths, p) && Newest(headers, paths, p, Ranks(groups)[p]) {
      var k :| 0 <= k < |groups| && groups[k].path == p;
      FirstIsNewest(groups[k], headers, paths);
    }
    forall p | Used(headers, paths, p) ensures p in Ranks(groups) {
      UsedHasGroup(groups, headers, paths, p);
    }
  }

  /** Where each record stood before. */
  function Places(ids: seq<string>): map<string, int> {
    if ids == [] then map[] else Places(ids[..|ids| - 1])[ids[|ids| - 1] := |ids| - 1]
  }
}
