/**
 * The dial pad (DialPadScreen and DialPadGrid in MainActivity.kt): twelve keys
 * laid out row by row, three to a row, each of which appends its label to the
 * number being dialled.
 */
module DialPad {

  const DIAL_KEYS: seq<string> := ["1", "2", "3", "4", "5", "6", "7", "8", "9", "*", "0", "#"]

  /** Buttons per row: the `step 3` of the outer loop and the `0..2` of the inner one. */
  const ROW_WIDTH: nat := 3

  function Min(a: int, b: int): int
  {
    if a < b then a else b
  }

  /** The number after pressing `key`: the old number is kept as a prefix and the key follows it. */
  function AppendKey(phoneNumber: string, key: string): (r: string)
    ensures |r| == |phoneNumber| + |key|
    ensures r[..|phoneNumber|] == phoneNumber
    ensures r[|phoneNumber|..] == key
  {
    phoneNumber + key
  }

  /** The number after pressing `keys` in order. */
  function PressKeys(phoneNumber: string, keys: seq<string>): string
    decreases |keys|
  {
    if keys == [] then phoneNumber else PressKeys(AppendKey(phoneNumber, keys[0]), keys[1..])
  }

  function Concat(keys: seq<string>): string
  {
    if keys == [] then "" else keys[0] + Concat(keys[1..])
  }

  /** Pressing several keys appends their labels, in the order pressed. */
  lemma {:induction false} PressKeysAppendsLabels(phoneNumber: string, keys: seq<string>)
    ensures PressKeys(phoneNumber, keys) == phoneNumber + Concat(keys)
    decreases |keys|
  {
    if keys != [] {
      PressKeysAppendsLabels(phoneNumber + keys[0], keys[1..]);
      assert phoneNumber + keys[0] + Concat(keys[1..]) == phoneNumber + (keys[0] + Concat(keys[1..]));
    }
  }

  lemma {:induction false} ConcatOfPadKeys(keys: seq<string>)
    requires forall k :: k in keys ==> k in DIAL_KEYS
    ensures |Concat(keys)| == |keys|
  {
    if keys != [] {
      assert keys[0] in DIAL_KEYS;
      ConcatOfPadKeys(keys[1..]);
    }
  }

  /** Each pad key adds exactly one character after the number already typed. */
  lemma PadKeysAddOneCharacterEach(phoneNumber: string, keys: seq<string>)
    requires forall k :: k in keys ==> k in DIAL_KEYS
    ensures |PressKeys(phoneNumber, keys)| == |phoneNumber| + |keys|
    ensures PressKeys(phoneNumber, keys)[..|phoneNumber|] == phoneNumber
  {
    PressKeysAppendsLabels(phoneNumber, keys);
    ConcatOfPadKeys(keys);
  }

  /**
   * `rows` lays `keys` out row by row: enough rows of ROW_WIDTH for every key,
   * and row r holds the keys at indices ROW_WIDTH * r up to the next row's start
   * or the end of the list.
   */
  ghost predicate RowMajor(rows: seq<seq<string>>, keys: seq<string>)
  {
    && |keys| <= ROW_WIDTH * |rows| < |keys| + ROW_WIDTH
    && forall r :: 0 <= r < |rows| ==>
         rows[r] == keys[ROW_WIDTH * r .. Min(ROW_WIDTH * r + ROW_WIDTH, |keys|)]
  }

  function Flatten(rows: seq<seq<string>>): seq<string>
  {
    if rows == [] then [] else rows[0] + Flatten(rows[1..])
  }

  lemma RowMajorTail(rows: seq<seq<string>>, keys: seq<string>)
    requires RowMajor(rows, keys) && rows != []
    ensures rows[0] == keys[..Min(ROW_WIDTH, |keys|)]
    ensures RowMajor(rows[1..], keys[Min(ROW_WIDTH, |keys|)..])
  {
  }

  /** The grid visits every key exactly once, in row-major order. */
  lemma {:induction false} RowMajorFlattens(rows: seq<seq<string>>, keys: seq<string>)
    requires RowMajor(rows, keys)
    ensures Flatten(rows) == keys
  {
    if rows != [] {
      var k := Min(ROW_WIDTH, |keys|);
      RowMajorTail(rows, keys);
      RowMajorFlattens(rows[1..], keys[k..]);
      assert keys == keys[..k] + keys[k..];
    }
  }

  /**
   * The nested loops of DialPadGrid over a list of labels: the outer loop steps
   * through the indices three at a time, the inner one tries three offsets, and
   * the `index < numbers.size` guard keeps every read in bounds.
   */
  method LayOutGrid(numbers: seq<string>) returns (rows: seq<seq<string>>)
    ensures RowMajor(rows, numbers)
  {
    rows := [];
    var i := 0;
    while i < |numbers|
      invariant i == ROW_WIDTH * |rows| < |numbers| + ROW_WIDTH
      invariant forall r :: 0 <= r < |rows| ==>
                  rows[r] == numbers[ROW_WIDTH * r .. Min(ROW_WIDTH * r + ROW_WIDTH, |numbers|)]
    {
      var row: seq<string> := [];
      for j := 0 to ROW_WIDTH
        invariant row == numbers[i .. Min(i + j, |numbers|)]
      {
        var index := i + j;
        if index < |numbers| {
          assert numbers[i .. index + 1] == numbers[i .. index] + [numbers[index]];
          row := row + [numbers[index]];
        }
      }
      rows := rows + [row];
      i := i + ROW_WIDTH;
    }
  }

  const KEY_ROWS: seq<seq<string>> := [["1", "2", "3"], ["4", "5", "6"], ["7", "8", "9"], ["*", "0", "#"]]

  /** The twelve keys make four full rows of three. */
  lemma DialKeysRows(rows: seq<seq<string>>)
    requires RowMajor(rows, DIAL_KEYS)
    ensures rows == KEY_ROWS
  {
    assert |rows| == 4;
    assert rows[0] == DIAL_KEYS[0..3] == KEY_ROWS[0];
    assert rows[1] == DIAL_KEYS[3..6] == KEY_ROWS[1];
    assert rows[2] == DIAL_KEYS[6..9] == KEY_ROWS[2];
    assert rows[3] == DIAL_KEYS[9..12] == KEY_ROWS[3];
  }

  /** The dial pad's grid: "1" to "9" in three rows, then "*", "0", "#". */
  method DialPadGrid() returns (rows: seq<seq<string>>)
    ensures rows == KEY_ROWS
    ensures Flatten(rows) == DIAL_KEYS
  {
    rows := LayOutGrid(DIAL_KEYS);
    DialKeysRows(rows);
    RowMajorFlattens(rows, DIAL_KEYS);
  }
}
