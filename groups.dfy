/** The groups slice of the Redux store (state/ducks/groups.ts): its reducer,
    and the `getGroups` side effect that folds the rows of a LEFT JOIN of
    groups with their sounds into a list of groups, each holding its sounds. */
module Groups {
  import opened Effects

  datatype Sound = Sound(id: int, name: string, uri: string)

  datatype Group = Group(id: int, name: string, sounds: seq<Sound>)

  datatype GroupsState = GroupsState(pending: bool, data: seq<Group>, error: Option<string>)

  /** The three actions of the slice; `Other` is any action of another slice,
      which every reducer of the store also receives. */
  datatype GroupsAction =
    | GroupsLoading(loading: bool)
    | GroupsSuccess(groups: seq<Group>)
    | GroupsError(message: string)
    | Other(kind: string)

  /** The state before any action: loading, no groups, no error. */
  const InitialState := GroupsState(true, [], None)

  /** The reducer. Redux passes `None` (an undefined state) on its first call,
      for which the default parameter `InitialState` stands in. */
  function Reducer(state: Option<GroupsState>, action: GroupsAction): (r: GroupsState)
    ensures var s := if state.Some? then state.value else InitialState;
      match action
      case GroupsLoading(loading) => r.pending == loading && r.data == s.data && r.error == s.error
      case GroupsSuccess(groups) => !r.pending && r.data == groups && r.error == s.error
      case GroupsError(message) => !r.pending && r.data == s.data && r.error == Some(message)
      case Other(_) => r == s
  {
    var s := if state.Some? then state.value else InitialState;
    match action
    case GroupsLoading(loading) => s.(pending := loading)
    case GroupsSuccess(groups) => s.(pending := false, data := groups)
    case GroupsError(message) => s.(pending := false, error := Some(message))
    case Other(_) => s
  }

  /** The state the store holds after dispatching `actions` in order, starting
      from `state`. */
  function Replay(state: Option<GroupsState>, actions: seq<GroupsAction>): GroupsState
    decreases |actions|
  {
    if actions == [] then
      (if state.Some? then state.value else InitialState)
    else
      Replay(Some(Reducer(state, actions[0])), actions[1..])
  }

  /** The payload of the last `GroupsSuccess` among `actions`, if any. */
  function LastSuccess(actions: seq<GroupsAction>): Option<seq<Group>> {
    if actions == [] then None
    else
      var last := actions[|actions| - 1];
      if last.GroupsSuccess? then Some(last.groups) else LastSuccess(actions[..|actions| - 1])
  }

  /** Replaying actions one more at the end is one more reducer step. */
  lemma {:induction false} ReplaySnoc(state: Option<GroupsState>, actions: seq<GroupsAction>, a: GroupsAction)
    ensures Replay(state, actions + [a]) == Reducer(Some(Replay(state, actions)), a)
    decreases |actions|
  {
    if actions == [] {
      assert [a][1..] == [];
    } else {
      assert (actions + [a])[1..] == actions[1..] + [a];
      ReplaySnoc(Some(Reducer(state, actions[0])), actions[1..], a);
    }
  }

  /** The groups on display are those of the last successful fetch; only a
      success ever replaces them. */
  lemma {:induction false} ReplayData(state: Option<GroupsState>, actions: seq<GroupsAction>)
    ensures var start := if state.Some? then state.value else InitialState;
      Replay(state, actions).data == (if LastSuccess(actions).Some? then LastSuccess(actions).value else start.data)
    decreases |actions|
  {
    if actions != [] {
      var init := actions[..|actions| - 1];
      assert actions == init + [actions[|actions| - 1]];
      ReplaySnoc(state, init, actions[|actions| - 1]);
      ReplayData(state, init);
    }
  }

  /** Once an error is recorded it is never cleared: a later success keeps it,
      a later error replaces it by the new message. */
  lemma {:induction false} ErrorIsSticky(state: Option<GroupsState>, actions: seq<GroupsAction>)
    requires state.Some? && state.value.error.Some?
    ensures Replay(state, actions).error.Some?
    decreases |actions|
  {
    if actions != [] {
      ErrorIsSticky(Some(Reducer(state, actions[0])), actions[1..]);
    }
  }

  // ---------------------------------------------------------------------
  // The rows of the query and the reference reading of them.

  /** One row of the LEFT JOIN: a group, and one of its sounds or `None` when
      the group has no sound (the SQL NULL of `s.id`). */
  datatype Row = Row(rowId: int, rowName: string, soundId: Option<int>, soundName: string, soundUri: string)

  function SoundOf(row: Row): Sound
    requires row.soundId.Some?
  {
    Sound(row.soundId.value, row.soundName, row.soundUri)
  }

  function RowIds(rows: seq<Row>): set<int> {
    set r | r in rows :: r.rowId
  }

  /** The sounds that the rows of group `id` carry, in row order. */
  function SoundsOf(rows: seq<Row>, id: int): seq<Sound> {
    if rows == [] then []
    else
      var last := rows[|rows| - 1];
      SoundsOf(rows[..|rows| - 1], id) + (if last.rowId == id && last.soundId.Some? then [SoundOf(last)] else [])
  }

  /** The name on the first row of group `id`. */
  function FirstName(rows: seq<Row>, id: int): string {
    if rows == [] then ""
    else if rows[0].rowId == id then rows[0].rowName
    else FirstName(rows[1..], id)
  }

  /** The distinct group ids in the order in which they first appear. */
  function FirstSeen(rows: seq<Row>): seq<int> {
    if rows == [] then []
    else
      var seen := FirstSeen(rows[..|rows| - 1]);
      var id := rows[|rows| - 1].rowId;
      if id in seen then seen else seen + [id]
  }

  /** The number of rows that carry a sound. */
  function SoundRowCount(rows: seq<Row>): nat {
    if rows == [] then 0
    else SoundRowCount(rows[..|rows| - 1]) + (if rows[|rows| - 1].soundId.Some? then 1 else 0)
  }

  predicate Distinct(xs: seq<int>) {
    forall i, j :: 0 <= i < j < |xs| ==> xs[i] != xs[j]
  }

  /** `k` is the index of the first row of group `id`. */
  predicate IsFirstRow(rows: seq<Row>, id: int, k: int) {
    0 <= k < |rows| && rows[k].rowId == id && forall j :: 0 <= j < k ==> rows[j].rowId != id
  }

  lemma {:induction false} RowIdsSnoc(rows: seq<Row>, r: Row)
    ensures RowIds(rows + [r]) == RowIds(rows) + {r.rowId}
  {
    assert forall x :: x in rows + [r] <==> x in rows || x == r;
  }

  /** `FirstName` names the group by its first row. */
  lemma {:induction false} FirstNameIsFirstRow(rows: seq<Row>, id: int, k: int)
    requires IsFirstRow(rows, id, k)
    ensures FirstName(rows, id) == rows[k].rowName
    decreases |rows|
  {
    if k > 0 {
      FirstNameIsFirstRow(rows[1..], id, k - 1);
    }
  }

  /** Appending a row changes the first name only of a group seen for the
      first time. */
  lemma {:induction false} FirstNameSnoc(rows: seq<Row>, r: Row, id: int)
    ensures id in RowIds(rows) ==> FirstName(rows + [r], id) == FirstName(rows, id)
    ensures id !in RowIds(rows) && r.rowId == id ==> FirstName(rows + [r], id) == r.rowName
    decreases |rows|
  {
    if rows == [] {
      assert [r][0] == r;
    } else {
      assert (rows + [r])[1..] == rows[1..] + [r];
      assert rows == [rows[0]] + rows[1..];
      RowIdsSnoc([rows[0]], rows[0]);
      FirstNameSnoc(rows[1..], r, id);
      if id in RowIds(rows) && rows[0].rowId != id {
        var x :| x in rows && x.rowId == id;
        assert x in rows[1..];
      }
    }
  }

  /** Each group id appears once in `FirstSeen`, and every id of a row does. */
  lemma {:induction false} FirstSeenDistinctCovers(rows: seq<Row>)
    ensures Distinct(FirstSeen(rows))
    ensures forall id :: id in FirstSeen(rows) <==> id in RowIds(rows)
    decreases |rows|
  {
    if rows != [] {
      var init := rows[..|rows| - 1];
      assert rows == init + [rows[|rows| - 1]];
      RowIdsSnoc(init, rows[|rows| - 1]);
      FirstSeenDistinctCovers(init);
    }
  }

  /** A group that no row mentions has no sounds. */
  lemma {:induction false} SoundsOfAbsent(rows: seq<Row>, id: int)
    requires id !in RowIds(rows)
    ensures SoundsOf(rows, id) == []
    decreases |rows|
  {
    if rows != [] {
      var init := rows[..|rows| - 1];
      assert rows == init + [rows[|rows| - 1]];
      RowIdsSnoc(init, rows[|rows| - 1]);
      SoundsOfAbsent(init, id);
    }
  }

  // ---------------------------------------------------------------------
  // Sums of sound counts over lists of group ids.

  /** The number of sounds of the groups `ids`, counted group by group. */
  function SoundTotal(rows: seq<Row>, ids: seq<int>): nat {
    if ids == [] then 0 else |SoundsOf(rows, ids[0])| + SoundTotal(rows, ids[1..])
  }

  lemma {:induction false} SoundTotalAppend(rows: seq<Row>, a: seq<int>, b: seq<int>)
    ensures SoundTotal(rows, a + b) == SoundTotal(rows, a) + SoundTotal(rows, b)
    decreases |a|
  {
    if a != [] {
      assert (a + b)[0] == a[0] && (a + b)[1..] == a[1..] + b;
      SoundTotalAppend(rows, a[1..], b);
    } else {
      assert a + b == b;
    }
  }

  /** Counting group by group does not depend on the order of the groups. */
  lemma {:induction false} SoundTotalPermutation(rows: seq<Row>, a: seq<int>, b: seq<int>)
    requires multiset(a) == multiset(b)
    ensures SoundTotal(rows, a) == SoundTotal(rows, b)
    decreases |a|
  {
    if a != [] {
      var x := a[0];
      assert x in multiset(b);
      var i :| 0 <= i < |b| && b[i] == x;
      var rest := b[..i] + b[i + 1..];
      assert b == b[..i] + [x] + b[i + 1..];
      assert a == [x] + a[1..];
      assert multiset(b) == multiset(b[..i]) + multiset{x} + multiset(b[i + 1..]);
      assert multiset(rest) == multiset(b[..i]) + multiset(b[i + 1..]);
      assert multiset(a) == multiset{x} + multiset(a[1..]);
      assert multiset(a[1..]) == multiset(a) - multiset{x};
      assert multiset(rest) == multiset(b) - multiset{x};
      SoundTotalPermutation(rows, a[1..], rest);
      SoundTotalAppend(rows, b[..i], b[i + 1..]);
      SoundTotalAppend(rows, b[..i] + [x], b[i + 1..]);
      SoundTotalAppend(rows, b[..i], [x]);
    }
  }

  /** Appending a row adds one sound to the total of a list of distinct ids
      exactly when the row carries a sound of one of those groups. */
  lemma {:induction false} SoundTotalSnoc(rows: seq<Row>, r: Row, ids: seq<int>)
    requires Distinct(ids)
    ensures SoundTotal(rows + [r], ids)
         == SoundTotal(rows, ids) + (if r.soundId.Some? && r.rowId in ids then 1 else 0)
    decreases |ids|
  {
    if ids != [] {
      assert (rows + [r])[..|rows + [r]| - 1] == rows;
      assert r.rowId in ids[1..] ==> r.rowId != ids[0];
      SoundTotalSnoc(rows, r, ids[1..]);
    }
  }

  /** Over all groups, counted once each, the sounds are exactly the rows that
      carry a sound. */
  lemma {:induction false} SoundTotalFirstSeen(rows: seq<Row>)
    ensures SoundTotal(rows, FirstSeen(rows)) == SoundRowCount(rows)
    decreases |rows|
  {
    if rows != [] {
      var init := rows[..|rows| - 1];
      var r := rows[|rows| - 1];
      assert rows == init + [r];
      var seen := FirstSeen(init);
      FirstSeenDistinctCovers(init);
      SoundTotalFirstSeen(init);
      SoundTotalSnoc(init, r, seen);
      if r.rowId !in seen {
        SoundTotalAppend(rows, seen, [r.rowId]);
        SoundsOfAbsent(init, r.rowId);
        assert SoundsOf(rows, r.rowId) == SoundsOf(init, r.rowId) + (if r.soundId.Some? then [SoundOf(r)] else []);
      }
    }
  }

  // ---------------------------------------------------------------------
  // Object.keys on the memo object.

  /** The largest array index of ECMAScript: keys 0 .. 2^32 - 2 are array
      indices, which `Object.keys` lists first, in ascending numeric order
      (OrdinaryOwnPropertyKeys, section 10.1.11.1 of ECMAScript 2023). */
  const MaxArrayIndex: int := 0xFFFF_FFFE

  predicate IsArrayIndex(k: int) {
    0 <= k <= MaxArrayIndex
  }

  predicate Ascending(xs: seq<int>) {
    forall i, j :: 0 <= i < j < |xs| ==> xs[i] <= xs[j]
  }

  /** Inserts `x` before the first element not smaller than it. */
  function Insert(x: int, xs: seq<int>): (r: seq<int>)
    ensures multiset(r) == multiset(xs) + multiset{x}
  {
    if xs == [] || x <= xs[0] then [x] + xs
    else
      assert xs == [xs[0]] + xs[1..];
      [xs[0]] + Insert(x, xs[1..])
  }

  /** Every element of `Insert(x, xs)` is `x` or an element of `xs`. */
  lemma {:induction false} InsertElements(x: int, xs: seq<int>)
    ensures forall k :: 0 <= k < |Insert(x, xs)| ==> Insert(x, xs)[k] == x || Insert(x, xs)[k] in xs
  {
    if xs != [] && x > xs[0] {
      InsertElements(x, xs[1..]);
    }
  }

  /** Inserting into an ascending list keeps it ascending. */
  lemma {:induction false} InsertAscending(x: int, xs: seq<int>)
    requires Ascending(xs)
    ensures Ascending(Insert(x, xs))
  {
    if xs != [] && x > xs[0] {
      var t := Insert(x, xs[1..]);
      InsertAscending(x, xs[1..]);
      InsertElements(x, xs[1..]);
      assert forall k :: 0 <= k < |t| ==> xs[0] <= t[k];
    }
  }

  /** Insertion sort. */
  function SortAscending(xs: seq<int>): (r: seq<int>)
    ensures multiset(r) == multiset(xs)
    ensures Ascending(r)
  {
    if xs == [] then []
    else
      assert xs == [xs[0]] + xs[1..];
      InsertAscending(xs[0], SortAscending(xs[1..]));
      Insert(xs[0], SortAscending(xs[1..]))
  }

  function IndexKeys(keys: seq<int>): (r: seq<int>)
    ensures forall k :: k in r ==> IsArrayIndex(k)
  {
    if keys == [] then []
    else (if IsArrayIndex(keys[0]) then [keys[0]] else []) + IndexKeys(keys[1..])
  }

  function OtherKeys(keys: seq<int>): (r: seq<int>)
    ensures forall k :: k in r ==> !IsArrayIndex(k)
  {
    if keys == [] then []
    else (if IsArrayIndex(keys[0]) then [] else [keys[0]]) + OtherKeys(keys[1..])
  }

  /** Selecting the non-index keys distributes over concatenation. */
  lemma {:induction false} OtherKeysAppend(a: seq<int>, b: seq<int>)
    ensures OtherKeys(a + b) == OtherKeys(a) + OtherKeys(b)
    decreases |a|
  {
    if a == [] {
      assert a + b == b;
    } else {
      assert (a + b)[0] == a[0] && (a + b)[1..] == a[1..] + b;
      OtherKeysAppend(a[1..], b);
    }
  }

  /** `OtherKeys` keeps the non-index keys in creation order: the key created
      at position `p` is listed after the non-index keys created before it,
      so one created earlier is listed earlier. */
  lemma OtherKeysInCreationOrder(keys: seq<int>, p: int, q: int)
    requires 0 <= p < q < |keys| && !IsArrayIndex(keys[p]) && !IsArrayIndex(keys[q])
    ensures var i, j := |OtherKeys(keys[..p])|, |OtherKeys(keys[..q])|;
      i < j < |OtherKeys(keys)| && OtherKeys(keys)[i] == keys[p] && OtherKeys(keys)[j] == keys[q]
  {
    var x, y := keys[p], keys[q];
    var a, m, c := keys[..p], keys[p + 1..q], keys[q + 1..];
    assert keys[..q] == a + [x] + m;
    assert keys == a + [x] + m + [y] + c;
    assert OtherKeys([x]) == [x] && OtherKeys([y]) == [y];
    OtherKeysAppend(a, [x]);
    OtherKeysAppend(a + [x], m);
    OtherKeysAppend(a + [x] + m, [y]);
    OtherKeysAppend(a + [x] + m + [y], c);
  }

  lemma {:induction false} AllIndexKeys(keys: seq<int>)
    requires forall k :: k in keys ==> IsArrayIndex(k)
    ensures OtherKeys(keys) == [] && IndexKeys(keys) == keys
  {
    if keys != [] {
      assert keys[0] in keys;
      assert forall k :: k in keys[1..] ==> k in keys;
      AllIndexKeys(keys[1..]);
    }
  }

  lemma {:induction false} SplitKeys(keys: seq<int>)
    ensures multiset(IndexKeys(keys)) + multiset(OtherKeys(keys)) == multiset(keys)
  {
    if keys != [] {
      var k, rest := keys[0], keys[1..];
      assert keys == [k] + rest;
      SplitKeys(rest);
      if IsArrayIndex(k) {
        assert IndexKeys(keys) == [k] + IndexKeys(rest);
        assert OtherKeys(keys) == OtherKeys(rest);
      } else {
        assert IndexKeys(keys) == IndexKeys(rest);
        assert OtherKeys(keys) == [k] + OtherKeys(rest);
      }
    }
  }

  /** `Object.keys` of an object whose integer keys were created in the order
      `created`: array indices ascending, then the other keys in creation order. */
  function OwnKeys(created: seq<int>): (r: seq<int>)
    ensures multiset(r) == multiset(created)
    ensures forall i, j :: 0 <= i < j < |r| && IsArrayIndex(r[j]) ==> IsArrayIndex(r[i]) && r[i] <= r[j]
    ensures |OtherKeys(created)| <= |r| && r[|r| - |OtherKeys(created)|..] == OtherKeys(created)
    ensures Distinct(created) ==> Distinct(r)
  {
    var a := SortAscending(IndexKeys(created));
    var b := OtherKeys(created);
    SplitKeys(created);
    forall i | 0 <= i < |a| ensures IsArrayIndex(a[i]) {
      assert a[i] in multiset(IndexKeys(created));
    }
    assert (a + b)[|a|..] == b;
    assert Distinct(created) ==> Distinct(a + b) by {
      if Distinct(created) {
        DistinctPermutation(created, a + b);
      }
    }
    a + b
  }

  // ---------------------------------------------------------------------
  // The grouping itself.

  /** The groups `getGroups` dispatches for `rows`: one per group id in the
      order of `Object.keys`, named by its first row, holding its sounds. */
  function GroupsOf(rows: seq<Row>): (r: seq<Group>)
    ensures |r| == |FirstSeen(rows)|
  {
    var ids := OwnKeys(FirstSeen(rows));
    assert |ids| == |multiset(ids)| == |FirstSeen(rows)|;
    seq(|ids|, i requires 0 <= i < |ids| => Group(ids[i], FirstName(rows, ids[i]), SoundsOf(rows, ids[i])))
  }

  /** `GroupsOf` position by position. */
  lemma GroupsOfAt(rows: seq<Row>)
    ensures |GroupsOf(rows)| == |OwnKeys(FirstSeen(rows))|
    ensures forall j :: 0 <= j < |GroupsOf(rows)| ==> (var id := OwnKeys(FirstSeen(rows))[j];
      GroupsOf(rows)[j] == Group(id, FirstName(rows, id), SoundsOf(rows, id)))
  {
  }

  function Ids(groups: seq<Group>): seq<int> {
    seq(|groups|, i requires 0 <= i < |groups| => groups[i].id)
  }

  function TotalSounds(groups: seq<Group>): nat {
    if groups == [] then 0 else |groups[0].sounds| + TotalSounds(groups[1..])
  }

  /** The ids of the groups are the keys of the memo object. */
  lemma IdsOfGroupsOf(rows: seq<Row>)
    ensures Ids(GroupsOf(rows)) == OwnKeys(FirstSeen(rows))
  {
    var ids := OwnKeys(FirstSeen(rows));
    assert |Ids(GroupsOf(rows))| == |ids|;
    forall i | 0 <= i < |ids| ensures Ids(GroupsOf(rows))[i] == ids[i] {
      assert GroupsOf(rows)[i].id == ids[i];
    }
  }

  /** A value found at two places of a list occurs at least twice in it. */
  lemma RepeatCount(xs: seq<int>, i: int, j: int)
    requires 0 <= i < j < |xs| && xs[i] == xs[j]
    ensures multiset(xs)[xs[i]] >= 2
  {
    var x := xs[i];
    assert xs == xs[..i] + [x] + xs[i + 1..j] + [x] + xs[j + 1..];
  }

  /** In a list without repeats, a value occurs at most once. */
  lemma {:induction false} DistinctCount(xs: seq<int>, x: int)
    requires Distinct(xs)
    ensures multiset(xs)[x] <= 1
    decreases |xs|
  {
    if xs != [] {
      assert xs == [xs[0]] + xs[1..];
      DistinctCount(xs[1..], x);
    }
  }

  /** A permutation of a list without repeats has no repeats. */
  lemma DistinctPermutation(a: seq<int>, b: seq<int>)
    requires Distinct(a) && multiset(a) == multiset(b)
    ensures Distinct(b)
  {
    forall i, j | 0 <= i < j < |b| ensures b[i] != b[j] {
      if b[i] == b[j] {
        RepeatCount(b, i, j);
        DistinctCount(a, b[i]);
        assert false;
      }
    }
  }

  /** Exactly one group per distinct group id of the rows. */
  lemma GroupsOfOnePerId(rows: seq<Row>)
    ensures Distinct(Ids(GroupsOf(rows)))
    ensures forall id :: id in Ids(GroupsOf(rows)) <==> id in RowIds(rows)
  {
    var seen := FirstSeen(rows);
    var ids := OwnKeys(seen);
    FirstSeenDistinctCovers(rows);
    IdsOfGroupsOf(rows);
    DistinctPermutation(seen, ids);
    forall id ensures id in ids <==> id in seen {
      assert id in ids <==> id in multiset(ids);
      assert id in seen <==> id in multiset(seen);
    }
  }

  /** Each group is named by its first row and holds the sounds of its rows,
      in row order. */
  lemma GroupsOfContents(rows: seq<Row>, g: Group)
    requires g in GroupsOf(rows)
    ensures g.sounds == SoundsOf(rows, g.id)
    ensures exists k :: IsFirstRow(rows, g.id, k) && g.name == rows[k].rowName
  {
    var ids := OwnKeys(FirstSeen(rows));
    var i :| 0 <= i < |ids| && GroupsOf(rows)[i] == g;
    GroupsOfOnePerId(rows);
    assert g.id == Ids(GroupsOf(rows))[i];
    var k := FirstIndex(rows, g.id);
    FirstNameIsFirstRow(rows, g.id, k);
  }

  /** The index of the first row of a group that has rows. */
  lemma {:induction false} FirstIndex(rows: seq<Row>, id: int) returns (k: int)
    requires id in RowIds(rows)
    ensures IsFirstRow(rows, id, k)
    decreases |rows|
  {
    if rows[0].rowId == id {
      k := 0;
    } else {
      var x :| x in rows && x.rowId == id;
      assert x in rows[1..];
      var k' := FirstIndex(rows[1..], id);
      k := k' + 1;
    }
  }

  /** The groups hold one sound per row that carries a sound. */
  lemma GroupsOfSoundCount(rows: seq<Row>)
    ensures TotalSounds(GroupsOf(rows)) == SoundRowCount(rows)
  {
    var seen := FirstSeen(rows);
    var ids := OwnKeys(seen);
    TotalSoundsByIds(rows, GroupsOf(rows), ids);
    SoundTotalPermutation(rows, ids, seen);
    SoundTotalFirstSeen(rows);
  }

  lemma {:induction false} TotalSoundsByIds(rows: seq<Row>, groups: seq<Group>, ids: seq<int>)
    requires |groups| == |ids|
    requires forall i :: 0 <= i < |ids| ==> groups[i].sounds == SoundsOf(rows, ids[i])
    ensures TotalSounds(groups) == SoundTotal(rows, ids)
    decreases |ids|
  {
    if ids != [] {
      TotalSoundsByIds(rows, groups[1..], ids[1..]);
    }
  }

  /** When every group id is an array index (as SQLite row ids are), the
      groups come out in strictly ascending id order. */
  lemma GroupsOfAscending(rows: seq<Row>)
    requires forall r :: r in rows ==> IsArrayIndex(r.rowId)
    ensures forall i, j :: 0 <= i < j < |GroupsOf(rows)| ==> GroupsOf(rows)[i].id < GroupsOf(rows)[j].id
  {
    var seen := FirstSeen(rows);
    var ids := OwnKeys(seen);
    FirstSeenDistinctCovers(rows);
    IdsOfGroupsOf(rows);
    forall j | 0 <= j < |ids| ensures IsArrayIndex(ids[j]) {
      assert ids[j] in multiset(ids);
      assert ids[j] in seen;
      assert ids[j] in RowIds(rows);
      var r :| r in rows && r.rowId == ids[j];
    }
    forall i, j | 0 <= i < j < |GroupsOf(rows)| ensures GroupsOf(rows)[i].id < GroupsOf(rows)[j].id {
      assert GroupsOf(rows)[i].id == ids[i] && GroupsOf(rows)[j].id == ids[j];
      assert ids[i] <= ids[j] && ids[i] != ids[j];
    }
  }

  // ---------------------------------------------------------------------
  // The code of getGroups.

  /** What one more row does to the reference reading of the rows. */
  lemma StepFacts(rows: seq<Row>, r: Row)
    ensures RowIds(rows + [r]) == RowIds(rows) + {r.rowId}
    ensures FirstSeen(rows + [r]) == if r.rowId in RowIds(rows) then FirstSeen(rows) else FirstSeen(rows) + [r.rowId]
    ensures forall id :: (SoundsOf(rows + [r], id)
      == SoundsOf(rows, id) + (if r.rowId == id && r.soundId.Some? then [SoundOf(r)] else []))
    ensures forall id :: id in RowIds(rows) ==> FirstName(rows + [r], id) == FirstName(rows, id)
    ensures FirstName(rows + [r], r.rowId) == if r.rowId in RowIds(rows) then FirstName(rows, r.rowId) else r.rowName
    ensures r.rowId !in RowIds(rows) ==> SoundsOf(rows, r.rowId) == []
  {
    assert (rows + [r])[..|rows|] == rows;
    RowIdsSnoc(rows, r);
    FirstSeenDistinctCovers(rows);
    forall id {
      FirstNameSnoc(rows, r, id);
    }
    if r.rowId !in RowIds(rows) {
      SoundsOfAbsent(rows, r.rowId);
    }
  }

  /** `memo` holds, under each group id of `rows`, the group that the rows
      describe. */
  ghost predicate MemoMatches(rows: seq<Row>, memo: map<int, Group>) {
    && memo.Keys == RowIds(rows)
    && forall id :: id in memo ==> memo[id] == Group(id, FirstName(rows, id), SoundsOf(rows, id))
  }

  /** The memo after one more row: the group is created on its first row, and
      a row with a sound pushes that sound onto the group's list. */
  function MemoStep(memo: map<int, Group>, row: Row): (r: map<int, Group>)
    ensures r.Keys == memo.Keys + {row.rowId}
  {
    var m := if row.rowId in memo then memo else memo[row.rowId := Group(row.rowId, row.rowName, [])];
    if row.soundId.Some? then m[row.rowId := m[row.rowId].(sounds := m[row.rowId].sounds + [SoundOf(row)])]
    else m
  }

  lemma MemoStepMatches(rows: seq<Row>, memo: map<int, Group>, row: Row)
    requires MemoMatches(rows, memo)
    ensures MemoMatches(rows + [row], MemoStep(memo, row))
  {
    var memo' := MemoStep(memo, row);
    assert memo'.Keys == RowIds(rows + [row]) by {
      RowIdsSnoc(rows, row);
    }
    forall id | id in memo'
      ensures memo'[id] == Group(id, FirstName(rows + [row], id), SoundsOf(rows + [row], id))
    {
      StepFacts(rows, row);
      if id != row.rowId {
        assert memo'[id] == memo[id];
      } else if row.rowId in memo {
        assert memo'[id].name == memo[id].name;
      } else {
        assert memo'[id].name == row.rowName;
      }
    }
  }

  /** The fold of the rows into the `memo` object, written as the loop it is:
      `memo` maps each group id to its group, and `created` lists the keys in
      the order they were created. */
  method CollectRows(rows: seq<Row>) returns (memo: map<int, Group>, created: seq<int>)
    ensures created == FirstSeen(rows)
    ensures memo.Keys == RowIds(rows)
    ensures forall id :: id in memo ==> memo[id] == Group(id, FirstName(rows, id), SoundsOf(rows, id))
  {
    memo, created := map[], [];
    for i := 0 to |rows|
      invariant created == FirstSeen(rows[..i])
      invariant MemoMatches(rows[..i], memo)
    {
      var row := rows[i];
      assert rows[..i + 1] == rows[..i] + [row];
      StepFacts(rows[..i], row);
      MemoStepMatches(rows[..i], memo, row);
      if row.rowId !in memo {
        memo := memo[row.rowId := Group(row.rowId, row.rowName, [])];
        created := created + [row.rowId];
      }
      if row.soundId.Some? {
        var g := memo[row.rowId];
        memo := memo[row.rowId := g.(sounds := g.sounds + [Sound(row.soundId.value, row.soundName, row.soundUri)])];
      }
    }
    assert rows[..|rows|] == rows;
  }

  /** The flattening `Object.keys(data).reduce(...)`: the group stored under
      each key, in key order. */
  method Flatten(memo: map<int, Group>, keys: seq<int>) returns (groups: seq<Group>)
    requires forall j :: 0 <= j < |keys| ==> keys[j] in memo
    ensures |groups| == |keys|
    ensures forall j :: 0 <= j < |keys| ==> groups[j] == memo[keys[j]]
  {
    groups := [];
    for i := 0 to |keys|
      invariant |groups| == i
      invariant forall j :: 0 <= j < i ==> groups[j] == memo[keys[j]]
    {
      groups := groups + [memo[keys[i]]];
    }
  }

  /** `getGroups` from the rows the query returned to the list it dispatches:
      the fold, then the flattening of the memo object in `Object.keys` order. */
  method GroupRows(rows: seq<Row>) returns (groups: seq<Group>)
    ensures groups == GroupsOf(rows)
  {
    var memo, created := CollectRows(rows);
    var keys := OwnKeys(created);
    forall k | k in keys ensures k in memo {
      FirstSeenDistinctCovers(rows);
      assert k in multiset(keys);
      assert k in multiset(created);
    }
    groups := Flatten(memo, keys);
    GroupsOfAt(rows);
    forall j | 0 <= j < |keys| ensures groups[j] == GroupsOf(rows)[j] {
      assert keys[j] in keys;
    }
  }

  /** The actions `getGroups` dispatches when the query resolves with `rows`
      or throws. */
  method GetGroups(query: Call<seq<Row>>) returns (dispatched: seq<GroupsAction>)
    ensures query.Returned? ==> dispatched == [GroupsLoading(true), GroupsSuccess(GroupsOf(query.value))]
    ensures query.Threw? ==> dispatched == [GroupsLoading(true), GroupsError(query.message)]
  {
    dispatched := [GroupsLoading(true)];
    match query {
      case Returned(rows) =>
        var groups := GroupRows(rows);
        dispatched := dispatched + [GroupsSuccess(groups)];
      case Threw(message) =>
        dispatched := dispatched + [GroupsError(message)];
    }
  }

  /** A fetch settles the slice: after `getGroups` has dispatched its actions
      the slice is no longer pending, and it shows the grouped rows or records
      the error. */
  lemma FetchSettles(state: Option<GroupsState>, query: Call<seq<Row>>)
    ensures var dispatched :=
        if query.Returned? then [GroupsLoading(true), GroupsSuccess(GroupsOf(query.value))]
        else [GroupsLoading(true), GroupsError(query.message)];
      var r := Replay(state, dispatched);
      && !r.pending
      && (query.Returned? ==> r.data == GroupsOf(query.value))
      && (query.Threw? ==> r.error == Some(query.message))
  {
    var dispatched :=
      if query.Returned? then [GroupsLoading(true), GroupsSuccess(GroupsOf(query.value))]
      else [GroupsLoading(true), GroupsError(query.message)];
    var s1 := Reducer(state, dispatched[0]);
    var s2 := Reducer(Some(s1), dispatched[1]);
    assert Replay(state, dispatched) == Replay(Some(s1), dispatched[1..]);
    assert dispatched[1..][0] == dispatched[1] && dispatched[1..][1..] == [];
    assert Replay(Some(s1), dispatched[1..]) == Replay(Some(s2), []) == s2;
  }
}
