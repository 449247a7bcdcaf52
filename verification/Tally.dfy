/** A counting dictionary: cells in order of first insertion, each key once. */
module Tally {

  datatype Cell = Cell(key: int, n: int)

  /** Adds n to the key's cell, appending one when the key is new. */
  function AddTo(cells: seq<Cell>, key: int, n: int): seq<Cell> {
    if cells == [] then [Cell(key, n)]
    else if cells[0].key == key then [Cell(key, cells[0].n + n)] + cells[1..]
    else [cells[0]] + AddTo(cells[1..], key, n)
  }

  /** The key's value; 0 for a key without a cell. */
  function At(cells: seq<Cell>, key: int): int {
    if cells == [] then 0 else if cells[0].key == key then cells[0].n else At(cells[1..], key)
  }

  function TotalOf(cells: seq<Cell>): int {
    if cells == [] then 0 else cells[0].n + TotalOf(cells[1..])
  }

  predicate HasKey(cells: seq<Cell>, key: int) {
    exists c :: c in cells && c.key == key
  }

  predicate KeysOnce(cells: seq<Cell>) {
    forall i, j :: 0 <= i < j < |cells| ==> cells[i].key != cells[j].key
  }

  lemma {:induction false} AddedAt(cells: seq<Cell>, key: int, n: int, other: int)
    ensures At(AddTo(cells, key, n), other) == At(cells, other) + if other == key then n else 0
    ensures TotalOf(AddTo(cells, key, n)) == TotalOf(cells) + n
    ensures HasKey(AddTo(cells, key, n), other) <==> other == key || HasKey(cells, other)
  {
    if cells == [] {
      assert AddTo(cells, key, n) == [Cell(key, n)];
      assert [Cell(key, n)][0] in [Cell(key, n)];
    } else {
      var head, tail := cells[0], cells[1..];
      assert forall c :: c in cells <==> c == head || c in tail;
      AddedAt(tail, key, n, other);
      var next := AddTo(cells, key, n);
      if head.key == key {
        assert next == [Cell(key, head.n + n)] + tail;
        assert next[1..] == tail;
        assert forall c :: c in next <==> c == Cell(key, head.n + n) || c in tail;
        assert Cell(key, head.n + n) in next;
      } else {
        assert next == [head] + AddTo(tail, key, n);
        assert next[1..] == AddTo(tail, key, n);
        assert forall c :: c in next <==> c == head || c in AddTo(tail, key, n);
      }
    }
  }

  lemma {:induction false} AddedOnce(cells: seq<Cell>, key: int, n: int)
    requires KeysOnce(cells)
    ensures KeysOnce(AddTo(cells, key, n))
  {
    if cells != [] && cells[0].key != key {
      var tail := cells[1..];
      AddedOnce(tail, key, n);
      var added := AddTo(tail, key, n);
      forall j | 0 <= j < |added| ensures added[j].key != cells[0].key {
        AddedAt(tail, key, n, added[j].key);
        assert added[j] in added;
        if added[j].key != key {
          var c :| c in tail && c.key == added[j].key;
        }
      }
    }
  }

  lemma {:induction false} AtCell(cells: seq<Cell>, i: nat)
    requires KeysOnce(cells) && i < |cells|
    ensures At(cells, cells[i].key) == cells[i].n
  {
    if i > 0 { AtCell(cells[1..], i - 1); }
  }
}
