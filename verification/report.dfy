/**
 * Reading the header of a satprep snapshot report (a `;`-separated CSV file whose
 * first line names the columns), as both report readers do it: a column that the
 * header lacks keeps the index 666, and every rule that tests that column is off.
 */
module Report {
  import opened Common
  import opened Strings

  /** The index a column keeps when the header does not name it. */
  const Disabled := 666

  /** A column takes part in the selection rules only below the sentinel. */
  predicate Enabled(i: int) {
    i < Disabled
  }

  /** `s.replace(c, "")` for a one-character `c`. */
  function DropChar(s: string, c: char): (r: string)
    ensures c !in r
    ensures forall d :: d != c && d in s ==> d in r
    ensures forall d :: d in r ==> d in s
    ensures c !in s ==> r == s
  {
    if s == [] then ""
    else if s[0] == c then DropChar(s[1..], c)
    else [s[0]] + DropChar(s[1..], c)
  }

  /**
   * Removing a character works piece by piece: together with the ensures of
   * `DropChar` this fixes the result for every input, order and repeats included.
   */
  lemma {:induction false} DropCharAppend(a: string, b: string, c: char)
    ensures DropChar(a + b, c) == DropChar(a, c) + DropChar(b, c)
    decreases |a|
  {
    if a != [] {
      assert (a + b)[1..] == a[1..] + b;
      DropCharAppend(a[1..], b, c);
    } else {
      assert a + b == b;
    }
  }

  /**
   * `header.replace("\n","").replace("\r","").split(";")`: the fields are the
   * `;`-separated names of the header line with its line breaks removed.
   */
  function HeaderFields(line: string): (fields: seq<string>)
    ensures |fields| >= 1
    ensures forall k :: 0 <= k < |fields| ==> ';' !in fields[k]
    ensures '\n' !in line && '\r' !in line ==> Join(fields, ";") == line
  {
    var clean := DropChar(DropChar(line, '\n'), '\r');
    SplitJoin(clean, ';');
    Split(clean, ';')
  }

  /** For any header line, the fields joined by `;` give the line without its line breaks. */
  lemma HeaderFieldsJoin(line: string)
    ensures Join(HeaderFields(line), ";") == DropChar(DropChar(line, '\n'), '\r')
  {
    SplitJoin(DropChar(DropChar(line, '\n'), '\r'), ';');
  }

  /** `list.index(x)`, or -1 where Python raises ValueError. */
  function IndexIn(xs: seq<string>, x: string): (r: int)
    ensures -1 <= r < |xs|
    ensures r == -1 <==> x !in xs
    ensures r != -1 ==> xs[r] == x && x !in xs[..r]
  {
    if xs == [] then -1
    else if xs[0] == x then 0
    else
      var k := IndexIn(xs[1..], x);
      assert xs == [xs[0]] + xs[1..];
      if k == -1 then -1
      else
        assert xs[..k + 1] == [xs[0]] + xs[1..][..k];
        k + 1
  }

  /** The value the column table holds for `name` once the header is read. */
  function ColumnIndex(headers: seq<string>, name: string): int {
    var k := IndexIn(headers, name);
    if k == -1 then Disabled else k
  }

  /**
   * The loop that fills the column table: every name starts at the sentinel and
   * takes the index of its first occurrence in the header when there is one.
   */
  method ColumnIndexes(headers: seq<string>, names: seq<string>) returns (cols: map<string, int>)
    ensures forall n :: n in cols <==> n in names
    ensures forall n :: n in names && n in headers ==>
              0 <= cols[n] < |headers| && headers[cols[n]] == n && n !in headers[..cols[n]]
    ensures forall n :: n in names && n !in headers ==> cols[n] == Disabled
    ensures forall n :: n in names ==> cols[n] == ColumnIndex(headers, n)
  {
    cols := map n | n in names :: Disabled;
    var i := 0;
    while i < |names|
      invariant 0 <= i <= |names|
      invariant forall n :: n in cols <==> n in names
      invariant forall n :: n in cols ==>
                  cols[n] == if n in names[..i] then ColumnIndex(headers, n) else Disabled
    {
      var name := names[i];
      var k := IndexIn(headers, name);
      if k != -1 {
        cols := cols[name := k];
      }
      assert names[..i + 1] == names[..i] + [name];
      i := i + 1;
    }
    assert names[..i] == names;
  }

  /**
   * `row[i]` for a non-negative index (every column index is one), or None
   * where Python raises IndexError.
   */
  function At(row: seq<string>, i: int): (r: Option<string>)
    ensures r.Some? <==> 0 <= i < |row|
    ensures r.Some? ==> r.value == row[i]
  {
    if 0 <= i < |row| then Some(row[i]) else None
  }

  /** What evaluating one selection rule on a row does: skip it, add a name, or raise IndexError. */
  datatype Pick = Skip | Add(name: string) | Crash

  /** `cols[c] < 666 and row[cols[c]] == "1"`; None where the row is too short. */
  function Flag(row: seq<string>, i: int): (r: Option<bool>)
    ensures r == Some(true) <==> Enabled(i) && At(row, i) == Some("1")
    ensures r.None? <==> Enabled(i) && !(0 <= i < |row|)
  {
    if !Enabled(i) then Some(false)
    else match At(row, i)
      case None => None
      case Some(v) => Some(v == "1")
  }

  function NameOf(p: Pick): seq<string> {
    if p.Add? then [p.name] else []
  }
}
