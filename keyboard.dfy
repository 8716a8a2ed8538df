/**
 * The QWERTY layout tables (lib/utils/keyboard.ts): five rows of keys, the
 * finger and hand assigned to each key, and the lookups over them.
 */
module Keyboard {
  import opened JsBuiltins

  datatype Finger = Thumb | Index | Middle | Ring | Pinky
  datatype Hand = Left | Right

  datatype Assignment = Assignment(finger: Finger, hand: Hand)

  /** A 1-based row and a 0-based column. */
  datatype Position = Position(row: int, col: int)

  datatype KeyInfo = KeyInfo(key: string, finger: Finger, hand: Hand, row: int, col: int)

  const Row1: seq<string> := ["1", "2", "3", "4", "5", "6", "7", "8", "9", "0", "-", "="]
  const Row2: seq<string> := ["q", "w", "e", "r", "t", "y", "u", "i", "o", "p", "[", "]"]
  const Row3: seq<string> := ["a", "s", "d", "f", "g", "h", "j", "k", "l", ";", "'"]
  const Row4: seq<string> := ["z", "x", "c", "v", "b", "n", "m", ",", ".", "/"]
  /** The space bar. */
  const Row5: seq<string> := [" "]

  /** The rows in the order getKeyPosition searches them. */
  const Rows: seq<seq<string>> := [Row1, Row2, Row3, Row4, Row5]

  /** The finger table, row by row; the source writes it as one record with a section per row. */
  const Row1Fingers: map<string, Assignment> := map[
    "1" := Assignment(Pinky, Left), "2" := Assignment(Ring, Left), "3" := Assignment(Middle, Left),
    "4" := Assignment(Index, Left), "5" := Assignment(Index, Left), "6" := Assignment(Index, Right),
    "7" := Assignment(Index, Right), "8" := Assignment(Middle, Right), "9" := Assignment(Ring, Right),
    "0" := Assignment(Pinky, Right), "-" := Assignment(Pinky, Right), "=" := Assignment(Pinky, Right)]

  const Row2Fingers: map<string, Assignment> := map[
    "q" := Assignment(Pinky, Left), "w" := Assignment(Ring, Left), "e" := Assignment(Middle, Left),
    "r" := Assignment(Index, Left), "t" := Assignment(Index, Left), "y" := Assignment(Index, Right),
    "u" := Assignment(Index, Right), "i" := Assignment(Middle, Right), "o" := Assignment(Ring, Right),
    "p" := Assignment(Pinky, Right), "[" := Assignment(Pinky, Right), "]" := Assignment(Pinky, Right)]

  const Row3Fingers: map<string, Assignment> := map[
    "a" := Assignment(Pinky, Left), "s" := Assignment(Ring, Left), "d" := Assignment(Middle, Left),
    "f" := Assignment(Index, Left), "g" := Assignment(Index, Left), "h" := Assignment(Index, Right),
    "j" := Assignment(Index, Right), "k" := Assignment(Middle, Right), "l" := Assignment(Ring, Right),
    ";" := Assignment(Pinky, Right), "'" := Assignment(Pinky, Right)]

  const Row4Fingers: map<string, Assignment> := map[
    "z" := Assignment(Pinky, Left), "x" := Assignment(Ring, Left), "c" := Assignment(Middle, Left),
    "v" := Assignment(Index, Left), "b" := Assignment(Index, Left), "n" := Assignment(Index, Right),
    "m" := Assignment(Middle, Right), "," := Assignment(Middle, Right), "." := Assignment(Ring, Right),
    "/" := Assignment(Pinky, Right)]

  /** Both thumbs reach the space bar; the table credits the right one. */
  const Row5Fingers: map<string, Assignment> := map[" " := Assignment(Thumb, Right)]

  const FingerAssignments: map<string, Assignment> :=
    Row1Fingers + Row2Fingers + Row3Fingers + Row4Fingers + Row5Fingers

  /** getAllKeys: every key, row by row. */
  function AllKeys(): seq<string> {
    Row1 + Row2 + Row3 + Row4 + Row5
  }

  /** The position of an already lower-cased key in the first of rows[rowIndex..] that holds it. */
  function PositionIn(rows: seq<seq<string>>, lowerKey: string, rowIndex: nat): (p: Option<Position>)
    requires rowIndex <= |rows|
    ensures p.None? <==> forall r :: rowIndex <= r < |rows| ==> lowerKey !in rows[r]
    ensures p.Some? ==>
      rowIndex < p.value.row <= |rows| && 0 <= p.value.col < |rows[p.value.row - 1]| &&
      rows[p.value.row - 1][p.value.col] == lowerKey &&
      lowerKey !in rows[p.value.row - 1][..p.value.col] &&
      forall r :: rowIndex <= r < p.value.row - 1 ==> lowerKey !in rows[r]
    decreases |rows| - rowIndex
  {
    if rowIndex == |rows| then None
    else
      var colIndex := IndexOf(rows[rowIndex], lowerKey);
      if colIndex != -1 then Some(Position(rowIndex + 1, colIndex))
      else PositionIn(rows, lowerKey, rowIndex + 1)
  }

  /** The result of getKeyPosition, as a value. */
  function KeyPosition(key: string): Option<Position> {
    PositionIn(Rows, Lower(key), 0)
  }

  /** getKeyPosition: scans the rows in order and returns at the first hit. */
  method GetKeyPosition(key: string) returns (position: Option<Position>)
    ensures position == KeyPosition(key)
  {
    var lowerKey := Lower(key);
    var rows := Rows;
    for rowIndex := 0 to |rows|
      invariant PositionIn(rows, lowerKey, 0) == PositionIn(rows, lowerKey, rowIndex)
    {
      var colIndex := IndexOf(rows[rowIndex], lowerKey);
      if colIndex != -1 {
        return Some(Position(rowIndex + 1, colIndex));
      }
    }
    return None;
  }

  /** A key is in the flattened rows exactly when some row holds it. */
  lemma {:induction false} InFlattened(rows: seq<seq<string>>, k: string)
    ensures k in Flatten(rows) <==> exists r :: 0 <= r < |rows| && k in rows[r]
    decreases |rows|
  {
    if rows != [] {
      InFlattened(rows[1..], k);
      assert Flatten(rows) == rows[0] + Flatten(rows[1..]);
      if k in Flatten(rows[1..]) {
        var r :| 0 <= r < |rows[1..]| && k in rows[1..][r];
        assert k in rows[r + 1];
      }
      if exists r :: 0 <= r < |rows| && k in rows[r] {
        var r :| 0 <= r < |rows| && k in rows[r];
        if r > 0 { assert k in rows[1..][r - 1]; }
      }
    }
  }

  function Flatten(rows: seq<seq<string>>): seq<string>
    decreases |rows|
  {
    if rows == [] then [] else rows[0] + Flatten(rows[1..])
  }

  lemma AllKeysFlattensRows()
    ensures AllKeys() == Flatten(Rows)
  {
    assert Flatten(Rows[4..]) == Row5;
    assert Flatten(Rows[3..]) == Row4 + Row5;
    assert Flatten(Rows[2..]) == Row3 + Row4 + Row5;
    assert Flatten(Rows[1..]) == Row2 + Row3 + Row4 + Row5;
  }

  /** getKeyPosition finds a key exactly when the lower-cased key is on the layout. */
  lemma KeyPositionDefinedIffLayoutKey(key: string)
    ensures KeyPosition(key).None? <==> Lower(key) !in AllKeys()
    ensures KeyPosition(key).Some? ==>
      1 <= KeyPosition(key).value.row <= 5 &&
      Rows[KeyPosition(key).value.row - 1][KeyPosition(key).value.col] == Lower(key)
  {
    AllKeysFlattensRows();
    InFlattened(Rows, Lower(key));
  }

  /** getKeyPosition lower-cases first, so a key and its lower case share a position. */
  lemma KeyPositionIgnoresCase(key: string)
    ensures KeyPosition(key) == KeyPosition(Lower(key))
  {
    LowerIdempotent(key);
  }

  /** getKeyInfo over given rows and a given finger table. */
  function KeyInfoIn(rows: seq<seq<string>>, table: map<string, Assignment>, key: string): (info: Option<KeyInfo>)
    ensures info.Some? ==> info.value.key == Lower(key)
    ensures info.Some? ==>
      PositionIn(rows, Lower(key), 0) == Some(Position(info.value.row, info.value.col)) &&
      Lower(key) in table && table[Lower(key)] == Assignment(info.value.finger, info.value.hand)
  {
    var lowerKey := Lower(key);
    var position := PositionIn(rows, lowerKey, 0);
    if position.None? || lowerKey !in table then None
    else
      var assignment := table[lowerKey];
      Some(KeyInfo(lowerKey, assignment.finger, assignment.hand, position.value.row, position.value.col))
  }

  /** getKeyInfo: the key (lower-cased), its finger and hand, and its row and column. */
  function GetKeyInfo(key: string): (info: Option<KeyInfo>)
    ensures info.Some? ==> info.value.key == Lower(key)
    ensures info.Some? ==>
      KeyPosition(key) == Some(Position(info.value.row, info.value.col)) &&
      Lower(key) in FingerAssignments &&
      FingerAssignments[Lower(key)] == Assignment(info.value.finger, info.value.hand)
  {
    KeyInfoIn(Rows, FingerAssignments, key)
  }

  /** A key of one character that is not an upper-case letter. */
  predicate LowerSingle(k: string) {
    |k| == 1 && NoUpper(k)
  }

  predicate AllLowerSingle(keys: seq<string>) {
    forall i :: 0 <= i < |keys| ==> LowerSingle(keys[i])
  }

  predicate Distinct(keys: seq<string>) {
    forall i, j :: 0 <= i < j < |keys| ==> keys[i] != keys[j]
  }

  predicate Disjoint(a: seq<string>, b: seq<string>) {
    forall i, j :: 0 <= i < |a| && 0 <= j < |b| ==> a[i] != b[j]
  }

  lemma {:induction false} DistinctAppend(a: seq<string>, b: seq<string>)
    requires Distinct(a) && Distinct(b) && Disjoint(a, b)
    ensures Distinct(a + b)
  {
    var ab := a + b;
    forall i, j | 0 <= i < j < |ab| ensures ab[i] != ab[j] {
      if j < |a| {
        assert ab[i] == a[i] && ab[j] == a[j];
      } else if i < |a| {
        assert ab[i] == a[i] && ab[j] == b[j - |a|];
      } else {
        assert ab[i] == b[i - |a|] && ab[j] == b[j - |a|];
      }
    }
  }

  lemma {:induction false} DisjointAppend(a: seq<string>, b: seq<string>, c: seq<string>)
    requires Disjoint(a, c) && Disjoint(b, c)
    ensures Disjoint(a + b, c)
  {
    var ab := a + b;
    forall i, j | 0 <= i < |ab| && 0 <= j < |c| ensures ab[i] != c[j] {
      if i < |a| { assert ab[i] == a[i]; } else { assert ab[i] == b[i - |a|]; }
    }
  }

  lemma RowsLowerSingle()
    ensures AllLowerSingle(Row1) && AllLowerSingle(Row2) && AllLowerSingle(Row3)
    ensures AllLowerSingle(Row4) && AllLowerSingle(Row5)
  {
  }

  lemma RowsDistinct()
    ensures Distinct(Row1) && Distinct(Row2) && Distinct(Row3) && Distinct(Row4) && Distinct(Row5)
  {
  }

  lemma RowsDisjoint()
    ensures Disjoint(Row1, Row2) && Disjoint(Row1, Row3) && Disjoint(Row1, Row4) && Disjoint(Row1, Row5)
    ensures Disjoint(Row2, Row3) && Disjoint(Row2, Row4) && Disjoint(Row2, Row5)
    ensures Disjoint(Row3, Row4) && Disjoint(Row3, Row5)
    ensures Disjoint(Row4, Row5)
  {
    Row1Disjoint();
    Row2Disjoint();
    Row3Disjoint();
  }

  lemma Row1Disjoint()
    ensures Disjoint(Row1, Row2) && Disjoint(Row1, Row3) && Disjoint(Row1, Row4) && Disjoint(Row1, Row5)
  {
  }

  lemma Row2Disjoint()
    ensures Disjoint(Row2, Row3) && Disjoint(Row2, Row4) && Disjoint(Row2, Row5)
  {
  }

  lemma Row3Disjoint()
    ensures Disjoint(Row3, Row4) && Disjoint(Row3, Row5) && Disjoint(Row4, Row5)
  {
  }

  /** Every layout key is a single character with no upper-case letter. */
  lemma {:induction false} LayoutKeysAreLowerCase()
    ensures forall i :: 0 <= i < |AllKeys()| ==> |AllKeys()[i]| == 1 && NoUpper(AllKeys()[i])
  {
    RowsLowerSingle();
    var all := AllKeys();
    forall i | 0 <= i < |all| ensures LowerSingle(all[i]) {
      var a := |Row1|;
      var b := a + |Row2|;
      var c := b + |Row3|;
      var d := c + |Row4|;
      if i < a { assert all[i] == Row1[i]; }
      else if i < b { assert all[i] == Row2[i - a]; }
      else if i < c { assert all[i] == Row3[i - b]; }
      else if i < d { assert all[i] == Row4[i - c]; }
      else { assert all[i] == Row5[i - d]; }
    }
  }

  /** 46 keys: twelve, twelve, eleven, ten and the space bar; '1' first and the space last. */
  lemma AllKeysShape()
    ensures |AllKeys()| == 46
    ensures AllKeys()[0] == "1" && AllKeys()[45] == " "
  {
  }

  /** No key appears twice in the layout. */
  lemma {:induction false} AllKeysDistinct()
    ensures Distinct(AllKeys())
  {
    RowsDistinct();
    RowsDisjoint();
    DistinctAppend(Row1, Row2);
    DisjointAppend(Row1, Row2, Row3);
    DistinctAppend(Row1 + Row2, Row3);
    DisjointAppend(Row1, Row2, Row4);
    DisjointAppend(Row1 + Row2, Row3, Row4);
    DistinctAppend(Row1 + Row2 + Row3, Row4);
    DisjointAppend(Row1, Row2, Row5);
    DisjointAppend(Row1 + Row2, Row3, Row5);
    DisjointAppend(Row1 + Row2 + Row3, Row4, Row5);
    DistinctAppend(Row1 + Row2 + Row3 + Row4, Row5);
  }

  /** Round trip: each layout key is found at the row and column that hold it. */
  lemma PositionRoundTrip(k: string)
    requires k in AllKeys()
    ensures KeyPosition(k).Some?
    ensures Rows[KeyPosition(k).value.row - 1][KeyPosition(k).value.col] == k
  {
    LayoutKeysAreLowerCase();
    LowerFixesNoUpper(k);
    KeyPositionDefinedIffLayoutKey(k);
  }

  /** The keys a sequence of keys holds, as a set. */
  function KeySet(keys: seq<string>): set<string> {
    set k | k in keys
  }

  lemma KeySetAppend(a: seq<string>, b: seq<string>)
    ensures KeySet(a + b) == KeySet(a) + KeySet(b)
  {
  }

  lemma MergeKeys(m1: map<string, Assignment>, m2: map<string, Assignment>)
    ensures (m1 + m2).Keys == m1.Keys + m2.Keys
  {
  }

  lemma RowFingersCoverRows()
    ensures Row1Fingers.Keys == KeySet(Row1)
    ensures Row2Fingers.Keys == KeySet(Row2)
    ensures Row3Fingers.Keys == KeySet(Row3)
    ensures Row4Fingers.Keys == KeySet(Row4)
    ensures Row5Fingers.Keys == KeySet(Row5)
  {
    Row1FingersCover();
    Row2FingersCover();
    Row3FingersCover();
    Row4FingersCover();
  }

  lemma Row1FingersCover()
    ensures Row1Fingers.Keys == KeySet(Row1)
  {
  }

  lemma Row2FingersCover()
    ensures Row2Fingers.Keys == KeySet(Row2)
  {
  }

  lemma Row3FingersCover()
    ensures Row3Fingers.Keys == KeySet(Row3)
  {
  }

  lemma Row4FingersCover()
    ensures Row4Fingers.Keys == KeySet(Row4)
  {
  }

  /** The layout and the finger table cover the same 46 keys. */
  lemma AssignmentsCoverLayout()
    ensures FingerAssignments.Keys == KeySet(AllKeys())
  {
    RowFingersCoverRows();
    MergeKeys(Row1Fingers, Row2Fingers);
    MergeKeys(Row1Fingers + Row2Fingers, Row3Fingers);
    MergeKeys(Row1Fingers + Row2Fingers + Row3Fingers, Row4Fingers);
    MergeKeys(Row1Fingers + Row2Fingers + Row3Fingers + Row4Fingers, Row5Fingers);
    KeySetAppend(Row1, Row2);
    KeySetAppend(Row1 + Row2, Row3);
    KeySetAppend(Row1 + Row2 + Row3, Row4);
    KeySetAppend(Row1 + Row2 + Row3 + Row4, Row5);
  }

  /** Over any rows and a table keyed by exactly their keys, the info is defined iff the lower-cased key is on a row. */
  lemma KeyInfoInDefined(rows: seq<seq<string>>, table: map<string, Assignment>, key: string)
    requires table.Keys == KeySet(Flatten(rows))
    ensures KeyInfoIn(rows, table, key).Some? <==> Lower(key) in Flatten(rows)
  {
    InFlattened(rows, Lower(key));
    assert Lower(key) in Flatten(rows) <==> Lower(key) in KeySet(Flatten(rows));
  }

  /** getKeyInfo answers exactly for the layout keys (after lower-casing). */
  lemma KeyInfoDefinedIffLayoutKey(key: string)
    ensures GetKeyInfo(key).Some? <==> Lower(key) in AllKeys()
  {
    AssignmentsCoverLayout();
    AllKeysFlattensRows();
    KeyInfoInDefined(Rows, FingerAssignments, key);
  }

  /** A key missing from every row before the last, and first in the last, is found there. */
  lemma {:induction false} FoundInLastRow(rows: seq<seq<string>>, k: string, from: nat)
    requires from < |rows|
    requires forall r :: from <= r < |rows| - 1 ==> k !in rows[r]
    requires |rows[|rows| - 1]| > 0 && rows[|rows| - 1][0] == k
    ensures PositionIn(rows, k, from) == Some(Position(|rows|, 0))
    decreases |rows| - from
  {
    if from < |rows| - 1 {
      FoundInLastRow(rows, k, from + 1);
    }
  }

  lemma SpacePosition()
    ensures KeyPosition(" ") == Some(Position(5, 0))
  {
    assert Lower(" ") == " ";
    var rows := Rows;
    assert " " !in rows[0] && " " !in rows[1] && " " !in rows[2] && " " !in rows[3];
    FoundInLastRow(rows, " ", 0);
  }

  lemma SpaceAssignment()
    ensures " " in FingerAssignments && FingerAssignments[" "] == Assignment(Thumb, Right)
  {
    assert " " in Row5Fingers;
  }

  /** The space bar sits alone on row 5 and is struck by the right thumb. */
  lemma SpaceKeyInfo()
    ensures GetKeyInfo(" ") == Some(KeyInfo(" ", Thumb, Right, 5, 0))
  {
    SpacePosition();
    SpaceAssignment();
    assert Lower(" ") == " ";
  }
}
