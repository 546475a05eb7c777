/** The in-memory DAG store: a two-level index (round, then author slot) that stands for a plain map from
    (round, author) to a node and whether it is ordered. */
module DagStore {
  import opened Types
  import opened Aggregation

  datatype Node = Node(epoch: Epoch, round: Round, author: NodeId, payload: nat)

  datatype Entry = Unordered(node: Node) | Ordered(node: Node)

  datatype Key = Key(round: Round, author: NodeId)

  datatype DagError =
    | UnknownAuthor | NodeExists | RoundNotFound | IndexOutOfBounds | NodeNotFound | AlreadyOrdered

  type Row = seq<Option<Entry>>

  type Plain = map<Key, Entry>

  // ---------------------------------------------------------------- the author index

  /** Collecting `(author, position)` pairs into a map: a repeated author keeps its last position. */
  function IndexOf(authors: seq<NodeId>): map<NodeId, nat> {
    if authors == [] then map[]
    else var n := |authors| - 1; IndexOf(authors[..n])[authors[n] := n]
  }

  ghost predicate HasDuplicates(authors: seq<NodeId>) {
    exists i, j :: 0 <= i < j < |authors| && authors[i] == authors[j]
  }

  /** Exactly the listed authors are known, each under its own, last position. */
  lemma {:induction false} IndexIsLastPosition(authors: seq<NodeId>)
    ensures forall a :: a in IndexOf(authors) <==> a in authors
    ensures forall a | a in IndexOf(authors) :: IndexOf(authors)[a] < |authors| && authors[IndexOf(authors)[a]] == a
    ensures forall i | 0 <= i < |authors| :: i <= IndexOf(authors)[authors[i]]
  {
    if authors != [] {
      var n := |authors| - 1;
      IndexIsLastPosition(authors[..n]);
      assert authors == authors[..n] + [authors[n]];
    }
  }

  lemma DuplicatesByLast(front: seq<NodeId>, last: NodeId)
    ensures HasDuplicates(front + [last]) <==> HasDuplicates(front) || last in front
  {
    var all := front + [last];
    if HasDuplicates(front) {
      var i, j :| 0 <= i < j < |front| && front[i] == front[j];
      assert all[i] == all[j];
    }
    if last in front {
      var i :| 0 <= i < |front| && front[i] == last;
      assert all[i] == all[|front|];
    }
  }

  lemma {:induction false} IndexSize(authors: seq<NodeId>)
    ensures |IndexOf(authors)| <= |authors|
    ensures |IndexOf(authors)| == |authors| <==> !HasDuplicates(authors)
  {
    if authors != [] {
      var n := |authors| - 1;
      var front, last := authors[..n], authors[n];
      IndexSize(front);
      IndexIsLastPosition(front);
      assert authors == front + [last];
      DuplicatesByLast(front, last);
      MapGrows(IndexOf(front), last, n);
    }
  }

  /** New rows have a slot per distinct author; that is enough for every position exactly when no author is listed
      twice. Otherwise rows have to grow. */
  lemma NewRowsFitIffNoDuplicates(authors: seq<NodeId>)
    ensures (forall a | a in IndexOf(authors) :: IndexOf(authors)[a] < |IndexOf(authors)|) <==> !HasDuplicates(authors)
  {
    IndexIsLastPosition(authors);
    IndexSize(authors);
    if HasDuplicates(authors) {
      var last := authors[|authors| - 1];
      assert IndexOf(authors)[last] == |authors| - 1;
    }
  }

  // ---------------------------------------------------------------- what the rows stand for

  ghost predicate OwnPositions(index: map<NodeId, nat>) {
    forall a, b | a in index && b in index && index[a] == index[b] :: a == b
  }

  /** Every node of a row belongs to that round and sits in its author's slot. */
  ghost predicate RowOk(round: Round, row: Row, index: map<NodeId, nat>) {
    forall i | 0 <= i < |row| && row[i].Some? ::
      var n := row[i].value.node; n.round == round && n.author in index && index[n.author] == i
  }

  ghost predicate Populated(row: Row) {
    exists i :: 0 <= i < |row| && row[i].Some?
  }

  ghost predicate RowsOk(rows: map<Round, Row>, index: map<NodeId, nat>) {
    forall r | r in rows :: RowOk(r, rows[r], index) && Populated(rows[r])
  }

  function Slot(rows: map<Round, Row>, index: map<NodeId, nat>, k: Key): Option<Entry> {
    if k.author in index && k.round in rows && index[k.author] < |rows[k.round]|
    then rows[k.round][index[k.author]]
    else None
  }

  function Find(plain: Plain, k: Key): Option<Entry> {
    if k in plain then Some(plain[k]) else None
  }

  ghost predicate StandsFor(rows: map<Round, Row>, index: map<NodeId, nat>, plain: Plain) {
    forall k: Key :: Slot(rows, index, k) == Find(plain, k)
  }

  function KeyOf(n: Node): Key {
    Key(n.round, n.author)
  }

  /** A stored round is one that some stored node belongs to. */
  lemma StoredRounds(rows: map<Round, Row>, index: map<NodeId, nat>, plain: Plain, round: Round)
    requires RowsOk(rows, index) && StandsFor(rows, index, plain)
    ensures round in rows <==> exists a :: Key(round, a) in plain
  {
    if round in rows {
      var row := rows[round];
      var i :| 0 <= i < |row| && row[i].Some?;
      assert Slot(rows, index, KeyOf(row[i].value.node)) == row[i];
      assert Key(round, row[i].value.node.author) in plain;
    }
    forall a | Key(round, a) in plain ensures round in rows {
      assert Slot(rows, index, Key(round, a)).Some?;
    }
  }

  /** The nodes of a row, in slot order. */
  function NodesIn(row: Row): seq<Node> {
    if row == [] then [] else
      var n := |row| - 1;
      NodesIn(row[..n]) + if row[n].Some? then [row[n].value.node] else []
  }

  lemma {:induction false} NodesInContents(round: Round, row: Row, index: map<NodeId, nat>)
    requires RowOk(round, row, index)
    ensures forall n :: n in NodesIn(row) <==> exists i :: 0 <= i < |row| && row[i].Some? && row[i].value.node == n
    ensures forall n | n in NodesIn(row) :: n.author in index && index[n.author] < |row|
    ensures forall i, j | 0 <= i < j < |NodesIn(row)| :: index[NodesIn(row)[i].author] < index[NodesIn(row)[j].author]
  {
    if row != [] {
      var n := |row| - 1;
      var front := row[..n];
      NodesInContents(round, front, index);
      assert row == front + [row[n]];
      forall x | x in NodesIn(row) ensures exists i :: 0 <= i < |row| && row[i].Some? && row[i].value.node == x {
        if x in NodesIn(front) {
          var i :| 0 <= i < n && front[i].Some? && front[i].value.node == x;
          assert row[i].Some?;
        } else {
          assert row[n].Some?;
        }
      }
      forall i | 0 <= i < |row| && row[i].Some? ensures row[i].value.node in NodesIn(row) {
        if i < n {
          assert front[i].Some?;
        }
      }
    }
  }

  function KeysOf(nodes: seq<Node>): set<Key> {
    if nodes == [] then {} else var n := |nodes| - 1; KeysOf(nodes[..n]) + {KeyOf(nodes[n])}
  }

  lemma {:induction false} KeyOfMember(nodes: seq<Node>, n: Node)
    requires n in nodes
    ensures KeyOf(n) in KeysOf(nodes)
  {
    var last := |nodes| - 1;
    assert nodes == nodes[..last] + [nodes[last]];
    if n != nodes[last] {
      KeyOfMember(nodes[..last], n);
    }
  }

  lemma {:induction false} MemberWithKey(nodes: seq<Node>, k: Key) returns (n: Node)
    requires k in KeysOf(nodes)
    ensures n in nodes && KeyOf(n) == k
  {
    var last := |nodes| - 1;
    assert nodes == nodes[..last] + [nodes[last]];
    if k == KeyOf(nodes[last]) {
      n := nodes[last];
    } else {
      n := MemberWithKey(nodes[..last], k);
    }
  }

  lemma {:induction false} DistinctKeys(nodes: seq<Node>)
    requires forall i, j | 0 <= i < j < |nodes| :: nodes[i].author != nodes[j].author
    ensures |KeysOf(nodes)| == |nodes|
  {
    if nodes != [] {
      var last := |nodes| - 1;
      DistinctKeys(nodes[..last]);
      if KeyOf(nodes[last]) in KeysOf(nodes[..last]) {
        var n := MemberWithKey(nodes[..last], KeyOf(nodes[last]));
        assert false;
      }
    }
  }

  lemma RowKeyMember(rows: map<Round, Row>, index: map<NodeId, nat>, plain: Plain, round: Round, k: Key)
    requires OwnPositions(index) && RowsOk(rows, index) && StandsFor(rows, index, plain) && round in rows
    ensures k in KeysOf(NodesIn(rows[round])) <==> k in plain && k.round == round
  {
    var row := rows[round];
    NodesInContents(round, row, index);
    assert Slot(rows, index, k) == Find(plain, k);
    if k in KeysOf(NodesIn(row)) {
      var n := MemberWithKey(NodesIn(row), k);
      var i :| 0 <= i < |row| && row[i].Some? && row[i].value.node == n;
      assert Slot(rows, index, k) == row[i];
    }
    if k in plain && k.round == round {
      var e := row[index[k.author]];
      KeyOfMember(NodesIn(row), e.value.node);
    }
  }

  /** A row holds one node for each stored key of its round. */
  lemma RowKeys(rows: map<Round, Row>, index: map<NodeId, nat>, plain: Plain, round: Round)
    requires OwnPositions(index) && RowsOk(rows, index) && StandsFor(rows, index, plain) && round in rows
    ensures |KeysOf(NodesIn(rows[round]))| == |NodesIn(rows[round])|
    ensures forall k :: k in KeysOf(NodesIn(rows[round])) <==> k in plain && k.round == round
  {
    NodesInContents(round, rows[round], index);
    DistinctKeys(NodesIn(rows[round]));
    forall k ensures k in KeysOf(NodesIn(rows[round])) <==> k in plain && k.round == round {
      RowKeyMember(rows, index, plain, round, k);
    }
  }

  // ---------------------------------------------------------------- the plain map's own operations

  datatype Op = Add(node: Node) | Mark(key: Key) | PruneBelow(min: Round) | Clear

  function PlainAdd(plain: Plain, known: set<NodeId>, n: Node): (Plain, Outcome<DagError>) {
    if n.author !in known then (plain, Fail(UnknownAuthor))
    else if KeyOf(n) in plain then (plain, Fail(NodeExists))
    else (plain[KeyOf(n) := Unordered(n)], Pass)
  }

  function PlainMark(plain: Plain, k: Key): Plain {
    if k in plain then plain[k := Ordered(plain[k].node)] else plain
  }

  predicate MarkSucceeds(plain: Plain, k: Key) {
    k in plain && plain[k].Unordered?
  }

  function PlainPrune(plain: Plain, min: Round): Plain {
    map k | k in plain && k.round >= min :: plain[k]
  }

  // ---------------------------------------------------------------- what holds over every run

  function Next(plain: Plain, known: set<NodeId>, op: Op): Plain {
    match op
    case Add(n) => PlainAdd(plain, known, n).0
    case Mark(k) => PlainMark(plain, k)
    case PruneBelow(min) => PlainPrune(plain, min)
    case Clear => map[]
  }

  function Run(known: set<NodeId>, h: seq<Op>): Plain {
    if h == [] then map[] else Next(Run(known, h[..|h| - 1]), known, h[|h| - 1])
  }

  predicate Removes(op: Op, round: Round) {
    op.Clear? || (op.PruneBelow? && round < op.min)
  }

  predicate Adds(op: Op, known: set<NodeId>, k: Key) {
    op.Add? && KeyOf(op.node) == k && k.author in known
  }

  ghost predicate RemovedBetween(h: seq<Op>, round: Round, i: int, end: int)
    requires end <= |h|
  {
    exists m :: 0 <= i < m < end && Removes(h[m], round)
  }

  ghost predicate MarkedAfter(h: seq<Op>, k: Key, i: int) {
    exists m :: 0 <= i < m < |h| && h[m] == Mark(k)
  }

  /** `h[i]` is the first submission under the key since the key's round was last removed. */
  ghost predicate IsOrigin(h: seq<Op>, known: set<NodeId>, k: Key, i: int) {
    && 0 <= i < |h| && Adds(h[i], known, k) && !RemovedBetween(h, k.round, i, |h|)
    && forall j | 0 <= j < i && Adds(h[j], known, k) :: RemovedBetween(h, k.round, j, i)
  }

  lemma OriginPersists(h: seq<Op>, known: set<NodeId>, k: Key, i: int, op: Op)
    requires IsOrigin(h, known, k, i) && !Removes(op, k.round)
    ensures IsOrigin(h + [op], known, k, i)
    ensures MarkedAfter(h + [op], k, i) <==> MarkedAfter(h, k, i) || op == Mark(k)
  {
    var g := h + [op];
    forall j | 0 <= j < i && Adds(g[j], known, k) ensures RemovedBetween(g, k.round, j, i) {
      assert RemovedBetween(h, k.round, j, i);
      var m :| j < m < i && Removes(h[m], k.round);
      assert Removes(g[m], k.round);
    }
    if MarkedAfter(h, k, i) {
      var m :| i < m < |h| && h[m] == Mark(k);
      assert g[m] == Mark(k);
    }
    assert g[|h|] == op;
  }

  lemma RemovalsPersist(h: seq<Op>, round: Round, i: int, op: Op)
    requires RemovedBetween(h, round, i, |h|)
    ensures RemovedBetween(h + [op], round, i, |h| + 1)
  {
    var m :| 0 <= i < m < |h| && Removes(h[m], round);
    assert Removes((h + [op])[m], round);
  }

  /** Under each key the store has the first node submitted since the round was last pruned or cleared, ordered if it
      was marked since; a key it does not have was never submitted or has been removed since. */
  lemma {:induction false} StoredNodeIsFirstSubmitted(known: set<NodeId>, h: seq<Op>, k: Key) returns (i: int)
    ensures k in Run(known, h) ==>
      && IsOrigin(h, known, k, i)
      && Run(known, h)[k] == (if MarkedAfter(h, k, i) then Ordered(h[i].node) else Unordered(h[i].node))
    ensures k !in Run(known, h) ==>
      forall j | 0 <= j < |h| && Adds(h[j], known, k) :: RemovedBetween(h, k.round, j, |h|)
  {
    i := 0;
    if h != [] {
      var n := |h| - 1;
      var g, op := h[..n], h[n];
      assert h == g + [op];
      i := StoredNodeIsFirstSubmitted(known, g, k);
      if Removes(op, k.round) {
        forall j | 0 <= j < n ensures RemovedBetween(h, k.round, j, |h|) {
          assert Removes(h[n], k.round);
        }
      } else if k in Run(known, g) {
        OriginPersists(g, known, k, i, op);
      } else {
        forall j | 0 <= j < n && Adds(h[j], known, k)
          ensures RemovedBetween(h, k.round, j, |h|) && RemovedBetween(h, k.round, j, n)
        {
          assert Adds(g[j], known, k);
          RemovalsPersist(g, k.round, j, op);
          var m :| j < m < n && Removes(g[m], k.round);
          assert Removes(h[m], k.round);
        }
        i := n;
      }
    }
  }

  lemma {:induction false} OrderedStays(known: set<NodeId>, h: seq<Op>, k: Key, p: nat)
    requires p < |h| && h[p] == Mark(k) && k in Run(known, h[..p])
    requires !RemovedBetween(h, k.round, p, |h|)
    ensures k in Run(known, h) && Run(known, h)[k].Ordered?
  {
    var n := |h| - 1;
    if p < n {
      assert h[..n][..p] == h[..p];
      forall m | p < m < n ensures !Removes(h[..n][m], k.round) {
        assert !Removes(h[m], k.round);
      }
      OrderedStays(known, h[..n], k, p);
      assert !Removes(h[n], k.round);
    }
  }

  /** A key is marked twice only if its round was pruned or cleared in between. */
  lemma {:induction false} OrderedOnce(known: set<NodeId>, h: seq<Op>, k: Key, p: nat, q: nat)
    requires p < q < |h| && h[p] == h[q] == Mark(k)
    requires MarkSucceeds(Run(known, h[..p]), k) && MarkSucceeds(Run(known, h[..q]), k)
    ensures RemovedBetween(h, k.round, p, q)
  {
    if !RemovedBetween(h, k.round, p, q) {
      assert h[..q][..p] == h[..p];
      forall m | p < m < q ensures !Removes(h[..q][m], k.round) {
        assert !Removes(h[m], k.round);
      }
      OrderedStays(known, h[..q], k, p);
      assert false;
    }
  }

  /** After any run, a node is taken exactly if its author is known and nothing submitted under its key stands: every
      such submission was pruned or cleared since. */
  lemma {:induction false} AddSucceedsIff(known: set<NodeId>, h: seq<Op>, n: Node)
    ensures var r := PlainAdd(Run(known, h), known, n).1;
      var standing := exists j :: 0 <= j < |h| && Adds(h[j], known, KeyOf(n)) && !RemovedBetween(h, n.round, j, |h|);
      && (r == Fail(UnknownAuthor) <==> n.author !in known)
      && (r == Fail(NodeExists) <==> n.author in known && standing)
      && (r.Pass? <==> n.author in known && !standing)
  {
    var i := StoredNodeIsFirstSubmitted(known, h, KeyOf(n));
  }

  lemma OriginIsUnique(h: seq<Op>, known: set<NodeId>, k: Key, i: int, j: int)
    requires IsOrigin(h, known, k, i) && IsOrigin(h, known, k, j)
    ensures i == j
  {
  }

  /** A key can be marked exactly when it was submitted since its round was last removed and not marked since the first
      such submission. */
  lemma {:induction false} MarkSucceedsIff(known: set<NodeId>, h: seq<Op>, k: Key)
    ensures MarkSucceeds(Run(known, h), k) <==> exists i :: IsOrigin(h, known, k, i) && !MarkedAfter(h, k, i)
  {
    var j := StoredNodeIsFirstSubmitted(known, h, k);
    forall i | IsOrigin(h, known, k, i) ensures k in Run(known, h) && i == j {
      if k in Run(known, h) {
        OriginIsUnique(h, known, k, i, j);
      }
    }
  }

  /** Once marked, a key is marked again exactly when its round was removed, the key was submitted after the last
      removal and it has not been marked since. */
  lemma {:induction false} SecondOrderingIff(known: set<NodeId>, h: seq<Op>, k: Key, p: nat, q: nat)
    requires p < q < |h| && h[p] == h[q] == Mark(k) && MarkSucceeds(Run(known, h[..p]), k)
    ensures MarkSucceeds(Run(known, h[..q]), k) <==>
      exists c, i | p < c < i < q ::
        Removes(h[c], k.round) && IsOrigin(h[..q], known, k, i) && !MarkedAfter(h[..q], k, i)
  {
    MarkSucceedsIff(known, h[..q], k);
    if MarkSucceeds(Run(known, h[..q]), k) {
      var i :| IsOrigin(h[..q], known, k, i) && !MarkedAfter(h[..q], k, i);
      assert h[..q][p] == Mark(k) && h[..q][i].Add?;
      OrderedOnce(known, h, k, p, q);
      var c :| p < c < q && Removes(h[c], k.round);
      assert h[..q][c] == h[c];
      assert !RemovedBetween(h[..q], k.round, i, q);
    }
  }

  /** And then it can happen: nothing keeps a pruned round from being filled and ordered again. */
  lemma OrderedAgainAfterPruning(n: Node, min: Round)
    requires n.round < min
    ensures var known: set<NodeId> := {n.author};
      var h := [Add(n), Mark(KeyOf(n)), PruneBelow(min), Add(n), Mark(KeyOf(n))];
      MarkSucceeds(Run(known, h[..1]), KeyOf(n)) && MarkSucceeds(Run(known, h[..4]), KeyOf(n))
  {
    var known: set<NodeId> := {n.author};
    var h := [Add(n), Mark(KeyOf(n)), PruneBelow(min), Add(n), Mark(KeyOf(n))];
    assert h[..1][..0] == [] && h[..2][..1] == h[..1] && h[..3][..2] == h[..2] && h[..4][..3] == h[..3];
    assert Run(known, h[..1]) == map[KeyOf(n) := Unordered(n)];
    assert Run(known, h[..2]) == map[KeyOf(n) := Ordered(n)];
    assert Run(known, h[..3]) == map[];
    assert Run(known, h[..4]) == map[KeyOf(n) := Unordered(n)];
  }

  // ---------------------------------------------------------------- changes of one row

  lemma SlotWritten(rows: map<Round, Row>, index: map<NodeId, nat>, plain: Plain, row: Row, e: Entry)
    requires OwnPositions(index) && RowsOk(rows, index) && StandsFor(rows, index, plain)
    requires var k := KeyOf(e.node);
      && k.author in index && RowOk(k.round, row, index) && |row| > index[k.author]
      && row[index[k.author]] == Some(e)
      && forall a | a in index && a != k.author ::
        (if index[a] < |row| then row[index[a]] else None) == Slot(rows, index, Key(k.round, a))
    ensures var k := KeyOf(e.node);
      RowsOk(rows[k.round := row], index) && StandsFor(rows[k.round := row], index, plain[k := e])
  {
    var key := KeyOf(e.node);
    var after := rows[key.round := row];
    assert Populated(row);
    forall k: Key ensures Slot(after, index, k) == Find(plain[key := e], k) {
      assert Slot(rows, index, k) == Find(plain, k);
    }
  }

  method CountNodes(row: Row) returns (n: nat)
    ensures n == |NodesIn(row)|
  {
    n := 0;
    for j := 0 to |row|
      invariant n == |NodesIn(row[..j])|
    {
      assert row[..j + 1][..j] == row[..j];
      if row[j].Some? {
        n := n + 1;
      }
    }
    assert row[..|row|] == row;
  }

  // ---------------------------------------------------------------- the object

  class InMemDag {
    var nodesByRound: map<Round, Row>
    const authorToIndex: map<NodeId, nat>
    ghost var contents: Plain

    ghost predicate Valid()
      reads this
    {
      && OwnPositions(authorToIndex)
      && RowsOk(nodesByRound, authorToIndex)
      && StandsFor(nodesByRound, authorToIndex, contents)
      && forall r | r in nodesByRound :: |nodesByRound[r]| >= |authorToIndex|
    }

    constructor (authors: seq<NodeId>)
      ensures Valid() && contents == map[] && authorToIndex == IndexOf(authors)
    {
      var index: map<NodeId, nat> := map[];
      for i := 0 to |authors|
        invariant index == IndexOf(authors[..i])
      {
        assert authors[..i + 1][..i] == authors[..i];
        index := index[authors[i] := i];
      }
      assert authors[..|authors|] == authors;
      IndexIsLastPosition(authors);
      nodesByRound, authorToIndex, contents := map[], index, map[];
    }

    /** No lower bound on the round is checked, so a pruned round can be filled again. */
    method AddNode(node: Node) returns (r: Outcome<DagError>)
      requires Valid()
      modifies this
      ensures Valid()
      ensures (contents, r) == PlainAdd(old(contents), authorToIndex.Keys, node)
      ensures r.Fail? ==> nodesByRound == old(nodesByRound)
    {
      if node.author !in authorToIndex {
        return Fail(UnknownAuthor);
      }
      var i := authorToIndex[node.author];
      assert Slot(nodesByRound, authorToIndex, KeyOf(node)) == Find(contents, KeyOf(node));
      var row: Row :=
        if node.round in nodesByRound then nodesByRound[node.round] else seq(|authorToIndex|, _ => None);
      if |row| <= i {
        row := row + seq(i + 1 - |row|, _ => None);
      }
      if row[i].Some? {
        return Fail(NodeExists);
      }
      row := row[i := Some(Unordered(node))];
      SlotWritten(nodesByRound, authorToIndex, contents, row, Unordered(node));
      nodesByRound := nodesByRound[node.round := row];
      contents := contents[KeyOf(node) := Unordered(node)];
      return Pass;
    }

    method GetNodeStatus(key: Key) returns (status: Option<Entry>)
      requires Valid()
      ensures status == Find(contents, key)
    {
      assert Slot(nodesByRound, authorToIndex, key) == Find(contents, key);
      if key.author !in authorToIndex {
        return None;
      }
      if key.round !in nodesByRound {
        return None;
      }
      var i := authorToIndex[key.author];
      if i >= |nodesByRound[key.round]| {
        return None;
      }
      return nodesByRound[key.round][i];
    }

    method GetNode(key: Key) returns (node: Option<Node>)
      requires Valid()
      ensures node == if key in contents then Some(contents[key].node) else None
    {
      var status := GetNodeStatus(key);
      return if status.Some? then Some(status.value.node) else None;
    }

    method MarkOrdered(key: Key) returns (r: Outcome<DagError>)
      requires Valid()
      modifies this
      ensures Valid() && contents == PlainMark(old(contents), key)
      ensures r.Pass? <==> MarkSucceeds(old(contents), key)
      ensures r == Fail(UnknownAuthor) <==> key.author !in authorToIndex
      ensures r == Fail(RoundNotFound) <==>
        key.author in authorToIndex && forall a :: Key(key.round, a) !in old(contents)
      ensures r == Fail(AlreadyOrdered) <==> key in old(contents) && old(contents)[key].Ordered?
      ensures r == Fail(IndexOutOfBounds) <==>
        && key.author in authorToIndex && key.round in nodesByRound
        && |nodesByRound[key.round]| <= authorToIndex[key.author]
      ensures (forall a | a in authorToIndex :: authorToIndex[a] < |authorToIndex|) ==> r != Fail(IndexOutOfBounds)
      ensures r.Fail? ==> nodesByRound == old(nodesByRound)
    {
      assert Slot(nodesByRound, authorToIndex, key) == Find(contents, key);
      if key.author !in authorToIndex {
        return Fail(UnknownAuthor);
      }
      StoredRounds(nodesByRound, authorToIndex, contents, key.round);
      var i := authorToIndex[key.author];
      if key.round !in nodesByRound {
        return Fail(RoundNotFound);
      }
      var row := nodesByRound[key.round];
      if |row| <= i {
        return Fail(IndexOutOfBounds);
      }
      if row[i].None? {
        return Fail(NodeNotFound);
      }
      if row[i].value.Ordered? {
        return Fail(AlreadyOrdered);
      }
      var marked := Ordered(row[i].value.node);
      row := row[i := Some(marked)];
      SlotWritten(nodesByRound, authorToIndex, contents, row, marked);
      nodesByRound := nodesByRound[key.round := row];
      contents := contents[key := marked];
      return Pass;
    }

    /** The nodes of a round, each once, by increasing author position. */
    method GetRound(round: Round) returns (nodes: seq<Node>)
      requires Valid()
      ensures forall n | n in nodes :: n.author in authorToIndex
      ensures forall i, j | 0 <= i < j < |nodes| :: authorToIndex[nodes[i].author] < authorToIndex[nodes[j].author]
      ensures forall n :: n in nodes <==> n.round == round && KeyOf(n) in contents && contents[KeyOf(n)].node == n
    {
      nodes := [];
      if round in nodesByRound {
        var row := nodesByRound[round];
        for i := 0 to |row|
          invariant nodes == NodesIn(row[..i])
        {
          assert row[..i + 1][..i] == row[..i];
          if row[i].Some? {
            nodes := nodes + [row[i].value.node];
          }
        }
        assert row[..|row|] == row;
        NodesInContents(round, row, authorToIndex);
      }
      forall n ensures n in nodes <==> n.round == round && KeyOf(n) in contents && contents[KeyOf(n)].node == n {
        assert Slot(nodesByRound, authorToIndex, KeyOf(n)) == Find(contents, KeyOf(n));
      }
    }

    method Len() returns (n: nat)
      requires Valid()
      ensures n == |contents|
    {
      n := 0;
      var order := Enumerate(nodesByRound.Keys);
      ghost var done: set<Key> := {};
      for i := 0 to |order|
        invariant n == |done|
        invariant forall k: Key :: k in done <==> k in contents && k.round in order[..i]
      {
        var row := nodesByRound[order[i]];
        var stored := CountNodes(row);
        RowKeys(nodesByRound, authorToIndex, contents, order[i]);
        assert order[..i + 1] == order[..i] + [order[i]];
        assert order[i] !in order[..i];
        n := n + stored;
        done := done + KeysOf(NodesIn(row));
      }
      forall k | k in contents ensures k in done {
        assert Slot(nodesByRound, authorToIndex, k).Some?;
      }
      assert done == contents.Keys;
    }

    method PruneBelow(min: Round)
      requires Valid()
      modifies this
      ensures Valid() && contents == PlainPrune(old(contents), min)
    {
      nodesByRound := map r | r in nodesByRound && r >= min :: nodesByRound[r];
      contents := PlainPrune(contents, min);
      forall k: Key ensures Slot(nodesByRound, authorToIndex, k) == Find(contents, k) {
        assert old(Slot(nodesByRound, authorToIndex, k)) == Find(old(contents), k);
      }
    }

    method Clear()
      requires Valid()
      modifies this
      ensures Valid() && contents == map[] && nodesByRound == map[]
    {
      nodesByRound, contents := map[], map[];
    }
  }
}
