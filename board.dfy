/** The kanban board of the project detail page
    (managify-frontend/src/components/project/DetailProject.jsx): a map from
    status-column id to the ordered issues shown in that column, the
    per-column "already fetched" markers, the optimistic drag-and-drop move
    with its rollback, and the small state updaters around it. */
module Board {
  import opened Common

  /** An issue card as the page holds it (its id already turned into a string). */
  datatype Issue = Issue(id: string, title: string, description: string, priority: Option<string>, dueDate: Option<string>)

  /** `issuesByStatus`: status-column id to the column's issues, in display order. */
  type Columns = map<string, seq<Issue>>

  /** One end of a drag: the droppable (a status-column id) and the index in it. */
  datatype Location = Location(droppableId: string, index: int)

  /** The drag-end event of the drag-and-drop library; no destination when
      the card was dropped outside every column. */
  datatype DropResult = DropResult(source: Location, destination: Option<Location>, draggableId: string)

  /** The remote call `PUT /issue/update-status/{issueId}/{statusId}`. */
  datatype StatusUpdate = StatusUpdate(issueId: string, statusId: string)

  /** What one drag-end does at once: the board it applies, and the status
      update it sends, if any. */
  datatype DragStep = DragStep(board: Columns, request: Option<StatusUpdate>)

  // ---------------------------------------------------------------------
  // Array.prototype.splice on a copied column

  /** The index at which `splice(i, ...)` starts on an array of length n:
      a negative index counts from the end, and the result is clamped to
      the array. */
  function SpliceStart(i: int, n: nat): (k: nat)
    ensures k <= n
    ensures 0 <= i <= n ==> k == i
    ensures n < i ==> k == n
    ensures i < 0 <= n + i ==> k == n + i
    ensures n + i < 0 ==> k == 0
  {
    if i < 0 then (if n + i < 0 then 0 else n + i)
    else if i < n then i
    else n
  }

  /** `const [x] = arr.splice(i, 1)`: the array without the element at the
      start index, and that element, or nothing when the start index is the
      end of the array. */
  function RemoveAt(s: seq<Issue>, i: int): (r: (seq<Issue>, Option<Issue>))
    ensures r.1.Some? <==> SpliceStart(i, |s|) < |s|
    ensures r.1.None? ==> r.0 == s
    ensures r.1.Some? ==>
              var k := SpliceStart(i, |s|);
              r.1.value == s[k] && |r.0| == |s| - 1 && r.0[..k] == s[..k] && r.0[k..] == s[k + 1..]
  {
    var k := SpliceStart(i, |s|);
    if k < |s| then (s[..k] + s[k + 1..], Some(s[k])) else (s, None)
  }

  /** `arr.splice(i, 0, x)`: x inserted at the start index. */
  function InsertAt(s: seq<Issue>, i: int, x: Issue): (r: seq<Issue>)
    ensures var k := SpliceStart(i, |s|);
            |r| == |s| + 1 && r[..k] == s[..k] && r[k] == x && r[k + 1..] == s[k..]
  {
    var k := SpliceStart(i, |s|);
    s[..k] + [x] + s[k..]
  }

  /** splice removes an element exactly when the column is not empty and
      the index is below its length (a very negative index clamps to 0).
      What it returns is that element, the rest keeps the other elements,
      and putting the element back where it was restores the column. */
  lemma RemoveAtSpec(s: seq<Issue>, i: int)
    ensures RemoveAt(s, i).1.Some? <==> 0 < |s| && i < |s|
    ensures RemoveAt(s, i).1.None? ==> RemoveAt(s, i).0 == s
    ensures RemoveAt(s, i).1.Some? ==>
      var (rest, x) := RemoveAt(s, i);
      var k := SpliceStart(i, |s|);
      && x.value == s[k]
      && |rest| == |s| - 1
      && multiset(rest) + multiset{x.value} == multiset(s)
      && InsertAt(rest, k, x.value) == s
  {
    var k := SpliceStart(i, |s|);
    if k < |s| {
      DropOne(s, k);
    }
  }

  /** The facts behind RemoveAtSpec, for an index inside the column. */
  lemma DropOne(s: seq<Issue>, k: nat)
    requires k < |s|
    ensures multiset(s[..k] + s[k + 1..]) + multiset{s[k]} == multiset(s)
    ensures InsertAt(s[..k] + s[k + 1..], k, s[k]) == s
  {
    var rest := s[..k] + s[k + 1..];
    assert SpliceStart(k, |rest|) == k;
    assert rest[..k] == s[..k];
    assert rest[k..] == s[k + 1..];
    assert s == s[..k] + [s[k]] + s[k + 1..];
  }

  /** Insertion puts x at the start index, keeps every other element, and
      removing at that index gives the column and x back. */
  lemma InsertAtSpec(s: seq<Issue>, i: int, x: Issue)
    ensures
      var r := InsertAt(s, i, x);
      var k := SpliceStart(i, |s|);
      && |r| == |s| + 1
      && r[k] == x
      && multiset(r) == multiset(s) + multiset{x}
      && RemoveAt(r, k) == (s, Some(x))
  {
    var r := InsertAt(s, i, x);
    var k := SpliceStart(i, |s|);
    assert s == s[..k] + s[k..];
    assert r[..k] == s[..k];
    assert r[k + 1..] == s[k..];
    assert r[..k] + r[k + 1..] == s;
  }

  lemma InsertAtBag(s: seq<Issue>, i: int, x: Issue)
    ensures multiset(InsertAt(s, i, x)) == multiset(s) + multiset{x}
  {
    var k := SpliceStart(i, |s|);
    assert s == s[..k] + s[k..];
  }

  // ---------------------------------------------------------------------
  // The drag-end handler

  /** The drop lands in a different column than it left: the only kind of
      move that is reported to the server. */
  predicate IsCrossMove(board: Columns, r: DropResult) {
    && r.destination.Some?
    && r.source.droppableId != r.destination.value.droppableId
    && r.source.droppableId in board
    && r.destination.value.droppableId in board
    && 0 < |board[r.source.droppableId]|
    && r.source.index < |board[r.source.droppableId]|
  }

  /** handleDragEnd up to the moment the new map is applied: the board the
      page then shows and the status update it sends. A drop outside every
      column, a drop back onto the same slot, a missing column (for which
      `Array.from(undefined)` throws before anything is applied) and a
      source index at which splice finds nothing all leave the board as it
      was and send nothing. */
  function DragEnd(board: Columns, r: DropResult): (step: DragStep)
    ensures step.board.Keys == board.Keys
    ensures r.destination.None? ==> step == DragStep(board, None)
    ensures r.destination.Some? && r.source == r.destination.value ==> step == DragStep(board, None)
    ensures r.destination.Some? && r.source != r.destination.value
            && (r.source.droppableId !in board || r.destination.value.droppableId !in board)
            ==> step == DragStep(board, None)
    ensures r.source.droppableId in board && RemoveAt(board[r.source.droppableId], r.source.index).1.None?
            ==> step == DragStep(board, None)
    ensures forall k :: k in board && k != r.source.droppableId
                        && (r.destination.None? || k != r.destination.value.droppableId)
                        ==> step.board[k] == board[k]
    ensures step.request.Some? <==> IsCrossMove(board, r)
    ensures step.request.Some? ==> step.request.value == StatusUpdate(r.draggableId, r.destination.value.droppableId)
  {
    if r.destination.None? then DragStep(board, None)
    else
      var src, dst := r.source.droppableId, r.destination.value.droppableId;
      if src == dst && r.source.index == r.destination.value.index then DragStep(board, None)
      else if src !in board || dst !in board then DragStep(board, None)
      else
        var (rest, moved) := RemoveAt(board[src], r.source.index);
        if moved.None? then DragStep(board, None)
        else if src == dst then
          DragStep(board[src := InsertAt(rest, r.destination.value.index, moved.value)], None)
        else
          DragStep(board[src := rest][dst := InsertAt(board[dst], r.destination.value.index, moved.value)],
                   Some(StatusUpdate(r.draggableId, dst)))
  }

  /** In-column reorder: the issue that was at the source index now sits at
      the destination index (its end when the index lies beyond it), taking
      it out again leaves the other issues in their old order, the column
      holds the same issues, and no request is sent. */
  lemma ReorderMovesIssue(board: Columns, r: DropResult)
    requires r.destination.Some? && r.source.droppableId == r.destination.value.droppableId
    requires r.source.index != r.destination.value.index
    requires r.source.droppableId in board
    requires 0 < |board[r.source.droppableId]| && r.source.index < |board[r.source.droppableId]|
    ensures
      var col := board[r.source.droppableId];
      var col' := DragEnd(board, r).board[r.source.droppableId];
      && DragEnd(board, r).request.None?
      && |col'| == |col|
      && col'[SpliceStart(r.destination.value.index, |col| - 1)] == col[SpliceStart(r.source.index, |col|)]
      && RemoveAt(col', SpliceStart(r.destination.value.index, |col| - 1))
         == (RemoveAt(col, r.source.index).0, Some(col[SpliceStart(r.source.index, |col|)]))
      && multiset(col') == multiset(col)
  {
    var col := board[r.source.droppableId];
    RemoveAtSpec(col, r.source.index);
    var (rest, moved) := RemoveAt(col, r.source.index);
    InsertAtSpec(rest, r.destination.value.index, moved.value);
  }

  /** Cross-column move: the source column loses exactly the issue at the
      source index (putting it back restores the column), the destination
      column gains exactly that issue at the destination index (taking it
      out restores the column), and the one request names the dragged card
      and the destination column. */
  lemma CrossMoveTransfersIssue(board: Columns, r: DropResult)
    requires IsCrossMove(board, r)
    ensures
      var src, dst := r.source.droppableId, r.destination.value.droppableId;
      var step := DragEnd(board, r);
      var i := SpliceStart(r.source.index, |board[src]|);
      var j := SpliceStart(r.destination.value.index, |board[dst]|);
      var moved := board[src][i];
      && step.request == Some(StatusUpdate(r.draggableId, dst))
      && |step.board[src]| == |board[src]| - 1
      && InsertAt(step.board[src], i, moved) == board[src]
      && step.board[dst][j] == moved
      && RemoveAt(step.board[dst], j) == (board[dst], Some(moved))
  {
    var src, dst := r.source.droppableId, r.destination.value.droppableId;
    RemoveAtSpec(board[src], r.source.index);
    var (rest, moved) := RemoveAt(board[src], r.source.index);
    var col := InsertAt(board[dst], r.destination.value.index, moved.value);
    InsertAtSpec(board[dst], r.destination.value.index, moved.value);
    assert DragEnd(board, r).board == board[src := rest][dst := col];
  }

  // ---------------------------------------------------------------------
  // All issues on the board, and the page's "Total Issues" figure

  /** The multiset of every issue on the board, whatever column it is in. */
  ghost function Bag(board: Columns): multiset<Issue>
    decreases |board|
  {
    if board == map[] then multiset{}
    else
      var k :| k in board;
      multiset(board[k]) + Bag(board - {k})
  }

  /** `Object.values(issuesByStatus).reduce((acc, issues) => acc + issues.length, 0)`. */
  ghost function TotalIssues(board: Columns): (t: nat)
    ensures forall c :: c in board ==> |board[c]| <= t
    ensures board == map[] ==> t == 0
    decreases |board|
  {
    if board == map[] then 0
    else
      var k :| k in board;
      var rest := TotalIssues(board - {k});
      assert forall c :: c in board && c != k ==> c in board - {k};
      |board[k]| + rest
  }

  /** Bag can be split at any column, not only the one it picks. */
  lemma {:induction false} BagSplit(board: Columns, c: string)
    requires c in board
    ensures Bag(board) == multiset(board[c]) + Bag(board - {c})
    decreases |board|
  {
    var k :| k in board && Bag(board) == multiset(board[k]) + Bag(board - {k});
    if k != c {
      var b1, b2 := board - {k}, board - {c};
      assert |b1| < |board| && |b2| < |board|;
      BagSplit(b1, c);
      BagSplit(b2, k);
      assert b1 - {c} == b2 - {k};
    }
  }

  /** The same for the sum of the column lengths. */
  lemma {:induction false} TotalSplit(board: Columns, c: string)
    requires c in board
    ensures TotalIssues(board) == |board[c]| + TotalIssues(board - {c})
    decreases |board|
  {
    var k :| k in board && TotalIssues(board) == |board[k]| + TotalIssues(board - {k});
    if k != c {
      var b1, b2 := board - {k}, board - {c};
      assert |b1| < |board| && |b2| < |board|;
      TotalSplit(b1, c);
      TotalSplit(b2, k);
      assert b1 - {c} == b2 - {k};
    }
  }

  /** The page's total is the number of issues on the board. */
  lemma {:induction false} TotalIsBagSize(board: Columns)
    ensures TotalIssues(board) == |Bag(board)|
    decreases |board|
  {
    if board != map[] {
      var k :| k in board;
      BagSplit(board, k);
      TotalSplit(board, k);
      TotalIsBagSize(board - {k});
    }
  }

  /** Any drag keeps the multiset of issues across the board, so the total
      issue count does not change. */
  lemma DragPreservesIssues(board: Columns, r: DropResult)
    ensures Bag(DragEnd(board, r).board) == Bag(board)
    ensures TotalIssues(DragEnd(board, r).board) == TotalIssues(board)
  {
    var step := DragEnd(board, r);
    if step.board != board {
      var src, dst := r.source.droppableId, r.destination.value.droppableId;
      RemoveAtSpec(board[src], r.source.index);
      var (rest, moved) := RemoveAt(board[src], r.source.index);
      if src == dst {
        ReorderKeepsBag(board, src, rest, moved.value, r.destination.value.index);
      } else {
        CrossKeepsBag(board, src, dst, rest, moved.value, r.destination.value.index);
      }
    }
    TotalIsBagSize(board);
    TotalIsBagSize(step.board);
  }

  lemma ReorderKeepsBag(board: Columns, c: string, rest: seq<Issue>, x: Issue, j: int)
    requires c in board
    requires multiset(rest) + multiset{x} == multiset(board[c])
    ensures Bag(board[c := InsertAt(rest, j, x)]) == Bag(board)
  {
    var col := InsertAt(rest, j, x);
    InsertAtBag(rest, j, x);
    assert multiset(col) == multiset(board[c]);
    BagSplit(board, c);
    BagSplit(board[c := col], c);
    assert board[c := col] - {c} == board - {c};
  }

  lemma CrossKeepsBag(board: Columns, src: string, dst: string, rest: seq<Issue>, x: Issue, j: int)
    requires src in board && dst in board && src != dst
    requires multiset(rest) + multiset{x} == multiset(board[src])
    ensures Bag(board[src := rest][dst := InsertAt(board[dst], j, x)]) == Bag(board)
  {
    var newDst := InsertAt(board[dst], j, x);
    var b2 := board[src := rest][dst := newDst];
    InsertAtBag(board[dst], j, x);
    assert b2[src] == rest && b2[dst] == newDst;
    var others := board - {src} - {dst};
    assert b2 - {src} - {dst} == others;
    BagSplit2(board, src, dst);
    BagSplit2(b2, src, dst);
    Shuffle(Bag(others), multiset(board[src]), multiset(board[dst]),
            multiset(rest), multiset(newDst), x);
  }

  /** Bag split at two distinct columns. */
  lemma BagSplit2(board: Columns, c: string, d: string)
    requires c in board && d in board && c != d
    ensures Bag(board) == Bag(board - {c} - {d}) + multiset(board[c]) + multiset(board[d])
  {
    BagSplit(board, c);
    BagSplit(board - {c}, d);
  }

  /** Moving one element from one part of a bag to another keeps the bag. */
  lemma Shuffle(r: multiset<Issue>, a: multiset<Issue>, b: multiset<Issue>, a': multiset<Issue>, b': multiset<Issue>, x: Issue)
    requires a == a' + multiset{x} && b' == b + multiset{x}
    ensures r + a' + b' == r + a + b
  {
  }

  /** A two-column example board: {"todo": [A, B], "doing": []}.
      Dragging A to the empty column shows {"todo": [B], "doing": [A]} and
      sends one update; dragging it behind B in its own column shows
      {"todo": [B, A]} and sends nothing. */
  lemma ExampleMoves(a: Issue, b: Issue)
    ensures
      var board := map["todo" := [a, b], "doing" := []];
      && DragEnd(board, DropResult(Location("todo", 0), Some(Location("doing", 0)), a.id))
         == DragStep(map["todo" := [b], "doing" := [a]], Some(StatusUpdate(a.id, "doing")))
      && DragEnd(board, DropResult(Location("todo", 0), Some(Location("todo", 1)), a.id))
         == DragStep(map["todo" := [b, a], "doing" := []], None)
  {
    var board := map["todo" := [a, b], "doing" := []];
    assert "todo" != "doing";
    assert RemoveAt([a, b], 0) == ([b], Some(a)) by {
      assert [a, b][..0] + [a, b][1..] == [b];
    }
    assert InsertAt([], 0, a) == [a];
    assert InsertAt([b], 1, a) == [b, a] by {
      assert [b][..1] + [a] + [b][1..] == [b, a];
    }
    var cross := DragEnd(board, DropResult(Location("todo", 0), Some(Location("doing", 0)), a.id));
    assert cross.board == board["todo" := [b]]["doing" := [a]];
    assert board["todo" := [b]]["doing" := [a]] == map["todo" := [b], "doing" := [a]];
    var within := DragEnd(board, DropResult(Location("todo", 0), Some(Location("todo", 1)), a.id));
    assert within.board == board["todo" := [b, a]];
    assert board["todo" := [b, a]] == map["todo" := [b, a], "doing" := []];
  }

  // ---------------------------------------------------------------------
  // The other state updaters

  /** `prev[statusId] || []`. */
  function ColumnOf(board: Columns, statusId: string): seq<Issue> {
    if statusId in board then board[statusId] else []
  }

  /** handleAddIssue after a successful create: the new issue is appended
      to its column (an absent column counts as empty). */
  function AddIssue(board: Columns, statusId: string, issue: Issue): (b: Columns)
    ensures b.Keys == board.Keys + {statusId}
    ensures b[statusId] == ColumnOf(board, statusId) + [issue]
    ensures forall k :: k in board && k != statusId ==> b[k] == board[k]
  {
    board[statusId := ColumnOf(board, statusId) + [issue]]
  }

  /** The issues of a column whose id differs from issueId, in order
      (`.filter(issue => issue.id !== issueId)`). */
  function WithoutId(col: seq<Issue>, issueId: string): (r: seq<Issue>)
    ensures |r| <= |col|
    ensures forall x {:trigger x in r} :: x in r <==> x in col && x.id != issueId
    ensures forall x :: x in r ==> multiset(r)[x] == multiset(col)[x]
  {
    if col == [] then []
    else
      assert col == [col[0]] + col[1..];
      if col[0].id == issueId then WithoutId(col[1..], issueId)
      else [col[0]] + WithoutId(col[1..], issueId)
  }

  /** The filter keeps the order of the kept issues: filtering a
      concatenation filters each part. */
  lemma {:induction false} WithoutIdAppend(a: seq<Issue>, b: seq<Issue>, issueId: string)
    ensures WithoutId(a + b, issueId) == WithoutId(a, issueId) + WithoutId(b, issueId)
  {
    if a == [] {
      assert a + b == b;
    } else {
      var head := if a[0].id == issueId then [] else [a[0]];
      calc {
        WithoutId(a + b, issueId);
      == { assert (a + b)[0] == a[0]; WithoutIdCons(a + b, issueId); }
        head + WithoutId((a + b)[1..], issueId);
      == { assert (a + b)[1..] == a[1..] + b; }
        head + WithoutId(a[1..] + b, issueId);
      == { WithoutIdAppend(a[1..], b, issueId); }
        head + (WithoutId(a[1..], issueId) + WithoutId(b, issueId));
      ==
        (head + WithoutId(a[1..], issueId)) + WithoutId(b, issueId);
      == { WithoutIdCons(a, issueId); }
        WithoutId(a, issueId) + WithoutId(b, issueId);
      }
    }
  }

  /** One unfolding step of the filter on a non-empty column. */
  lemma WithoutIdCons(col: seq<Issue>, issueId: string)
    requires col != []
    ensures WithoutId(col, issueId)
         == (if col[0].id == issueId then [] else [col[0]]) + WithoutId(col[1..], issueId)
  {
    if col[0].id == issueId {
      assert [] + WithoutId(col[1..], issueId) == WithoutId(col[1..], issueId);
    }
  }

  /** On one issue the filter keeps it iff its id differs. */
  lemma WithoutIdSingle(x: Issue, issueId: string)
    ensures WithoutId([x], issueId) == (if x.id == issueId then [] else [x])
  {
    assert [x][1..] == [];
  }

  /** Number of issues in a column carrying a given id. */
  function CountId(col: seq<Issue>, issueId: string): nat {
    if col == [] then 0 else (if col[0].id == issueId then 1 else 0) + CountId(col[1..], issueId)
  }

  /** Filtering drops exactly the issues with that id. */
  lemma {:induction false} WithoutIdCount(col: seq<Issue>, issueId: string)
    ensures |WithoutId(col, issueId)| == |col| - CountId(col, issueId)
  {
    if col != [] {
      WithoutIdCount(col[1..], issueId);
    }
  }

  /** handleDeleteIssue after a successful delete: the one column loses
      exactly the issues with that id; every other column is unchanged. */
  function DeleteIssue(board: Columns, statusId: string, issueId: string): (b: Columns)
    ensures b.Keys == board.Keys + {statusId}
    ensures b[statusId] == WithoutId(ColumnOf(board, statusId), issueId)
    ensures forall x :: x in b[statusId] <==> x in ColumnOf(board, statusId) && x.id != issueId
    ensures forall k :: k in board && k != statusId ==> b[k] == board[k]
  {
    board[statusId := WithoutId(ColumnOf(board, statusId), issueId)]
  }

  /** Deleting lowers the total by the number of issues with that id in
      that column. */
  lemma DeleteIssueTotal(board: Columns, statusId: string, issueId: string)
    requires statusId in board
    ensures TotalIssues(DeleteIssue(board, statusId, issueId)) + CountId(board[statusId], issueId) == TotalIssues(board)
  {
    var b := DeleteIssue(board, statusId, issueId);
    WithoutIdCount(board[statusId], issueId);
    TotalSplit(board, statusId);
    TotalSplit(b, statusId);
    assert b - {statusId} == board - {statusId};
  }

  /** Adding an issue to an existing column raises the total by one. */
  lemma AddIssueTotal(board: Columns, statusId: string, issue: Issue)
    requires statusId in board
    ensures TotalIssues(AddIssue(board, statusId, issue)) == TotalIssues(board) + 1
  {
    var b := AddIssue(board, statusId, issue);
    TotalSplit(board, statusId);
    TotalSplit(b, statusId);
    assert b - {statusId} == board - {statusId};
  }

  /** handleAddStatus after a successful create: the new column starts
      empty (replacing a column of the same id, should one exist). */
  function AddStatusColumn(board: Columns, statusId: string): (b: Columns)
    ensures b.Keys == board.Keys + {statusId}
    ensures b[statusId] == []
    ensures forall k :: k in board && k != statusId ==> b[k] == board[k]
  {
    board[statusId := []]
  }

  /** The per-column fetch, on success: the column is replaced by what the
      server returned. */
  function ReplaceColumn(board: Columns, statusId: string, issues: seq<Issue>): (b: Columns)
    ensures b.Keys == board.Keys + {statusId}
    ensures b[statusId] == issues
    ensures forall k :: k in board && k != statusId ==> b[k] == board[k]
  {
    board[statusId := issues]
  }

  /** `fetchedStatuses[id]` is truthy. */
  predicate Fetched(fetched: map<string, bool>, statusId: string) {
    statusId in fetched && fetched[statusId]
  }

  /** getPriorityColor of the detail page: the priority is lower-cased
      (ASCII letters only) and compared; urgent and critical are red, high
      orange, medium gold, anything else and a missing priority green. */
  function PriorityColor(priority: Option<string>): (color: string)
    ensures priority.None? ==> color == "green"
    ensures priority.Some? && AsciiLower(priority.value) in {"urgent", "critical"} <==> color == "red"
    ensures priority.Some? && AsciiLower(priority.value) == "high" <==> color == "orange"
    ensures priority.Some? && AsciiLower(priority.value) == "medium" <==> color == "gold"
    ensures priority.Some? && AsciiLower(priority.value) !in {"urgent", "critical", "high", "medium"}
            ==> color == "green"
  {
    if priority.None? then "green"
    else
      var p := AsciiLower(priority.value);
      if p == "urgent" || p == "critical" then "red"
      else if p == "high" then "orange"
      else if p == "medium" then "gold"
      else "green"
  }

  function AsciiLowerChar(c: char): char {
    if 'A' <= c <= 'Z' then (c as int + 32) as char else c
  }

  /** `toLowerCase` restricted to ASCII letters. */
  function AsciiLower(s: string): (r: string)
    ensures |r| == |s|
    ensures forall i :: 0 <= i < |s| ==> r[i] == AsciiLowerChar(s[i])
  {
    if s == [] then [] else [AsciiLowerChar(s[0])] + AsciiLower(s[1..])
  }

  /** The two lower priorities the issue form offers, in its upper-case
      spelling: DEFAULT is green, MEDIUM gold. */
  lemma FormPriorityColorsLow()
    ensures PriorityColor(Some("DEFAULT")) == "green"
    ensures PriorityColor(Some("MEDIUM")) == "gold"
  {
    LowerWord("DEFAULT", "default");
    LowerWord("MEDIUM", "medium");
  }

  /** The three higher ones: HIGH is orange, URGENT and CRITICAL red. */
  lemma FormPriorityColorsHigh()
    ensures PriorityColor(Some("HIGH")) == "orange"
    ensures PriorityColor(Some("URGENT")) == "red"
    ensures PriorityColor(Some("CRITICAL")) == "red"
  {
    LowerWord("HIGH", "high");
    LowerWord("URGENT", "urgent");
    LowerWord("CRITICAL", "critical");
  }

  lemma LowerWord(s: string, t: string)
    requires |s| == |t| && forall i :: 0 <= i < |s| ==> AsciiLowerChar(s[i]) == t[i]
    ensures AsciiLower(s) == t
  {
    assert forall i :: 0 <= i < |s| ==> AsciiLower(s)[i] == t[i];
  }

  // ---------------------------------------------------------------------
  // The page state

  /** A cross-column move whose status update is in flight: the pre-drag
      map kept for rollback and the request that was sent. */
  datatype PendingMove = PendingMove(snapshot: Columns, update: StatusUpdate)

  /** The state of one ProjectDetail page once its project has loaded. */
  class ProjectDetail {
    var statusIds: seq<string>
    var issuesByStatus: Columns
    var fetchedStatuses: map<string, bool>

    /** fetchProject on success: one empty column per status; no column is
        marked as fetched yet. */
    constructor (statuses: seq<string>)
      ensures statusIds == statuses
      ensures issuesByStatus.Keys == set s | s in statuses
      ensures forall s :: s in issuesByStatus ==> issuesByStatus[s] == []
      ensures fetchedStatuses == map[]
    {
      statusIds := statuses;
      var board := BuildInitialColumns(statuses);
      issuesByStatus := board;
      fetchedStatuses := map[];
    }

    /** The second effect's loop: the status columns whose issues are
        still to be fetched, in project order. */
    method ColumnsToFetch() returns (ids: seq<string>)
      ensures forall s :: s in ids <==> s in statusIds && !Fetched(fetchedStatuses, s)
      ensures |ids| <= |statusIds|
    {
      ids := [];
      var i := 0;
      while i < |statusIds|
        invariant 0 <= i <= |statusIds|
        invariant |ids| <= i
        invariant forall s :: s in ids <==> s in statusIds[..i] && !Fetched(fetchedStatuses, s)
      {
        assert statusIds[..i + 1] == statusIds[..i] + [statusIds[i]];
        if !Fetched(fetchedStatuses, statusIds[i]) {
          ids := ids + [statusIds[i]];
        }
        i := i + 1;
      }
      assert statusIds[..i] == statusIds;
    }

    /** A successful `GET /issue/get/{statusId}`: the column is replaced and
        marked as fetched. */
    method ApplyFetchedColumn(statusId: string, issues: seq<Issue>)
      modifies this
      ensures statusIds == old(statusIds)
      ensures issuesByStatus == ReplaceColumn(old(issuesByStatus), statusId, issues)
      ensures fetchedStatuses == old(fetchedStatuses)[statusId := true]
    {
      issuesByStatus := ReplaceColumn(issuesByStatus, statusId, issues);
      fetchedStatuses := fetchedStatuses[statusId := true];
    }

    /** handleDragEnd up to the await: the two columns are copied, spliced
        and written into a copy of the map, which is applied at once; for a
        cross-column move the returned pending move holds the pre-drag map
        and the request sent. The markers are not touched yet. */
    method HandleDragEnd(r: DropResult) returns (pending: Option<PendingMove>)
      modifies this
      ensures issuesByStatus == DragEnd(old(issuesByStatus), r).board
      ensures pending.Some? <==> DragEnd(old(issuesByStatus), r).request.Some?
      ensures pending.Some? ==> pending.value == PendingMove(old(issuesByStatus), DragEnd(old(issuesByStatus), r).request.value)
      ensures statusIds == old(statusIds) && fetchedStatuses == old(fetchedStatuses)
    {
      pending := None;
      if r.destination.None? {
        return;
      }
      var sourceId, destId := r.source.droppableId, r.destination.value.droppableId;
      if sourceId == destId && r.source.index == r.destination.value.index {
        return;
      }
      var oldIssues := issuesByStatus;
      var newIssues := issuesByStatus;
      if sourceId !in newIssues || destId !in newIssues {
        return;
      }
      var sourceIssues := newIssues[sourceId];
      var destIssues := if sourceId == destId then sourceIssues else newIssues[destId];
      var removed := RemoveAt(sourceIssues, r.source.index);
      sourceIssues := removed.0;
      if removed.1.None? {
        return;
      }
      var movedIssue := removed.1.value;
      if sourceId == destId {
        sourceIssues := InsertAt(sourceIssues, r.destination.value.index, movedIssue);
        newIssues := newIssues[sourceId := sourceIssues];
      } else {
        destIssues := InsertAt(destIssues, r.destination.value.index, movedIssue);
        newIssues := newIssues[sourceId := sourceIssues];
        newIssues := newIssues[destId := destIssues];
      }
      issuesByStatus := newIssues;
      if sourceId != destId {
        pending := Some(PendingMove(oldIssues, StatusUpdate(r.draggableId, destId)));
      }
    }

    /** The status update of a pending move has answered. On success every
        fetched marker is dropped, for all columns and not only the two
        touched, and the board is left as it is; on failure the board is
        put back to the pre-drag map exactly and the markers are left. */
    method FinishMove(p: PendingMove, succeeded: bool)
      modifies this
      ensures statusIds == old(statusIds)
      ensures succeeded ==> issuesByStatus == old(issuesByStatus) && fetchedStatuses == map[]
      ensures !succeeded ==> issuesByStatus == p.snapshot && fetchedStatuses == old(fetchedStatuses)
    {
      if succeeded {
        fetchedStatuses := map[];
      } else {
        issuesByStatus := p.snapshot;
      }
    }

    /** A failed cross-column move leaves the board exactly as it was
        before the drag, and after a successful one no column is marked
        fetched. */
    method DragAndSettle(r: DropResult, succeeded: bool)
      modifies this
      ensures statusIds == old(statusIds)
      ensures IsCrossMove(old(issuesByStatus), r) && !succeeded ==>
                issuesByStatus == old(issuesByStatus) && fetchedStatuses == old(fetchedStatuses)
      ensures IsCrossMove(old(issuesByStatus), r) && succeeded ==>
                issuesByStatus == DragEnd(old(issuesByStatus), r).board
                && forall s :: s in statusIds ==> !Fetched(fetchedStatuses, s)
      ensures !IsCrossMove(old(issuesByStatus), r) ==>
                issuesByStatus == DragEnd(old(issuesByStatus), r).board && fetchedStatuses == old(fetchedStatuses)
    {
      var pending := HandleDragEnd(r);
      if pending.Some? {
        FinishMove(pending.value, succeeded);
      }
    }

    /** handleAddIssue; nothing changes when the create request fails. */
    method HandleAddIssue(statusId: string, created: Option<Issue>)
      modifies this
      ensures statusIds == old(statusIds) && fetchedStatuses == old(fetchedStatuses)
      ensures created.None? ==> issuesByStatus == old(issuesByStatus)
      ensures created.Some? ==> issuesByStatus == AddIssue(old(issuesByStatus), statusId, created.value)
    {
      if created.Some? {
        issuesByStatus := AddIssue(issuesByStatus, statusId, created.value);
      }
    }

    /** handleDeleteIssue; nothing changes when the delete request fails. */
    method HandleDeleteIssue(issueId: string, statusId: string, deleted: bool)
      modifies this
      ensures statusIds == old(statusIds) && fetchedStatuses == old(fetchedStatuses)
      ensures !deleted ==> issuesByStatus == old(issuesByStatus)
      ensures deleted ==> issuesByStatus == DeleteIssue(old(issuesByStatus), statusId, issueId)
    {
      if deleted {
        issuesByStatus := DeleteIssue(issuesByStatus, statusId, issueId);
      }
    }

    /** handleAddStatus: on success the new status joins the project's
        columns and gets an empty column on the board. */
    method HandleAddStatus(created: Option<string>)
      modifies this
      ensures fetchedStatuses == old(fetchedStatuses)
      ensures created.None? ==> statusIds == old(statusIds) && issuesByStatus == old(issuesByStatus)
      ensures created.Some? ==> statusIds == old(statusIds) + [created.value]
                                && issuesByStatus == AddStatusColumn(old(issuesByStatus), created.value)
    {
      if created.Some? {
        statusIds := statusIds + [created.value];
        issuesByStatus := AddStatusColumn(issuesByStatus, created.value);
      }
    }
  }

  /** The `forEach` of fetchProject: every status id of the project is
      given an empty column, and there are no other columns. */
  method BuildInitialColumns(statuses: seq<string>) returns (board: Columns)
    ensures board.Keys == set s | s in statuses
    ensures forall s :: s in board ==> board[s] == []
  {
    board := map[];
    var i := 0;
    while i < |statuses|
      invariant 0 <= i <= |statuses|
      invariant board.Keys == set s | s in statuses[..i]
      invariant forall s :: s in board ==> board[s] == []
    {
      assert statuses[..i + 1] == statuses[..i] + [statuses[i]];
      board := board[statuses[i] := []];
      i := i + 1;
    }
    assert statuses[..i] == statuses;
  }
}
