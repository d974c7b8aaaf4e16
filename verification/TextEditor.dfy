/**
 * The inline remote-config editor. Three layers:
 *   - `Editor`, the mutable object: UTF-8 lines and a cursor counted in characters;
 *   - `Doc`, the same lines decoded to characters;
 *   - `Flat`, the simple thing it is meant to be: one text and one offset.
 * `Editor` is proved against `Doc` method by method; `Doc` refines `Flat` exactly as far as
 * the code lets it.
 */
module TextEditor {
  import opened Prelude
  import opened Utf8

  datatype Key =
    | Char(c: char) | Enter | Backspace
    | Left | Right | Up | Down | Home | End

  // ----- the editor on decoded lines ----------------------------------------------------

  datatype Doc = Doc(lines: seq<string>, cx: nat, cy: nat) {
    predicate Valid() {
      cy < |lines|
    }

    function Line(): string
      requires Valid()
    {
      lines[cy]
    }

    /** `String::len` of a row, in bytes; rows that do not exist count as empty. */
    function LineLen(row: nat): nat {
      if row < |lines| then |Encode(lines[row])| else 0
    }

    /** The cursor is on a character position of its line. */
    predicate InSync() {
      Valid() && cx <= |Line()|
    }

    predicate NewlineFree() {
      forall i :: 0 <= i < |lines| ==> '\n' !in lines[i]
    }

    predicate Ascii() {
      forall i :: 0 <= i < |lines| ==> IsAscii(lines[i])
    }

    function InsertChar(c: char): (d: Doc)
      requires Valid()
      ensures d.Valid()
    {
      var k := Min(cx, |Line()|);
      Doc(lines[cy := Line()[..k] + [c] + Line()[k..]], cx + 1, cy)
    }

    function Newline(): (d: Doc)
      requires Valid()
      ensures d.Valid()
    {
      var k := Min(cx, |Line()|);
      Doc(lines[..cy] + [Line()[..k], Line()[k..]] + lines[cy + 1..], 0, cy + 1)
    }

    /** `String::remove` panics past the last character: no result. */
    function Erase(): (d: Option<Doc>)
      requires Valid()
      ensures d.Some? ==> d.value.Valid()
    {
      if cx > |Line()| then None
      else if cx > 0 then Some(Doc(lines[cy := Line()[..cx - 1] + Line()[cx..]], cx - 1, cy))
      else if cy > 0 then
        Some(Doc(lines[..cy - 1] + [lines[cy - 1] + Line()] + lines[cy + 1..], |lines[cy - 1]|, cy - 1))
      else Some(this)
    }

    function MoveRows(dy: int): (d: Doc)
      requires Valid()
      ensures d.Valid()
    {
      if dy == 0 then this else
      var y := Clamp(cy + dy, 0, |lines| - 1);
      Doc(lines, Min(cx, |lines[y]|), y)
    }

    function MoveCols(dx: int): (d: Doc)
      requires Valid()
      ensures d.Valid()
    {
      if dx == 0 then this
      else if cx + dx < 0 then
        if cy > 0 then Doc(lines, LineLen(cy - 1), cy - 1) else this
      else if cx + dx > LineLen(cy) then
        if cy + 1 < |lines| then Doc(lines, 0, cy + 1) else this
      else Doc(lines, cx + dx, cy)
    }

    function Step(key: Key): (d: Option<Doc>)
      requires Valid()
      ensures d.Some? ==> d.value.Valid()
    {
      match key
      case Char(c) => Some(InsertChar(c))
      case Enter => Some(Newline())
      case Backspace => Erase()
      case Left => Some(MoveCols(-1))
      case Right => Some(MoveCols(1))
      case Up => Some(MoveRows(-1))
      case Down => Some(MoveRows(1))
      case Home => Some(Doc(lines, 0, cy))
      case End => Some(Doc(lines, LineLen(cy), cy))
    }

    ghost function Run(keys: seq<Key>): (d: Option<Doc>)
      requires Valid()
      ensures d.Some? ==> d.value.Valid()
    {
      if keys == [] then Some(this) else
      var before := Run(keys[..|keys| - 1]);
      if before.None? then None else before.value.Step(keys[|keys| - 1])
    }
  }

  /** `str::split('\n')`, which never yields an empty list. */
  function SplitLines(s: string): (lines: seq<string>)
    ensures lines != []
  {
    if s == [] then [""]
    else
      var rest := SplitLines(s[1..]);
      if s[0] == '\n' then [""] + rest else [[s[0]] + rest[0]] + rest[1..]
  }

  function Open(content: string): (d: Doc)
    ensures d.Valid()
  {
    Doc(SplitLines(content), 0, 0)
  }

  // ----- the flat text ------------------------------------------------------------------

  /** Rows before the cursor's row, each with its line break. */
  ghost function Before(rows: seq<string>): string {
    if rows == [] then [] else Before(rows[..|rows| - 1]) + rows[|rows| - 1] + ['\n']
  }

  /** Rows after the cursor's row, each behind a line break. */
  ghost function After(rows: seq<string>): string {
    if rows == [] then [] else ['\n'] + rows[0] + After(rows[1..])
  }

  /** `lines.join("\n")` */
  ghost function Join(lines: seq<string>): string {
    if lines == [] then [] else lines[0] + After(lines[1..])
  }

  /** The start of the line that offset o lies on. */
  ghost function RowStart(text: string, o: nat): (s: nat)
    requires o <= |text|
    ensures s <= o
  {
    if o == 0 || text[o - 1] == '\n' then o else RowStart(text, o - 1)
  }

  /** The end of the line that offset o lies on. */
  ghost function RowStop(text: string, o: nat): (e: nat)
    requires o <= |text|
    ensures o <= e <= |text|
    decreases |text| - o
  {
    if o == |text| || text[o] == '\n' then o else RowStop(text, o + 1)
  }

  datatype Flat = Flat(text: string, at: nat) {
    ghost predicate Valid() {
      at <= |text|
    }

    ghost function Insert(c: char): Flat
      requires Valid()
    {
      Flat(text[..at] + [c] + text[at..], at + 1)
    }

    /** The offset `column` characters into the line that starts at s, or the end of that line. */
    ghost function Column(s: nat, column: nat): Flat
      requires s <= |text|
    {
      Flat(text, s + Min(column, RowStop(text, s) - s))
    }

    ghost function Step(key: Key): (f: Flat)
      requires Valid()
      ensures f.Valid()
    {
      match key
      case Char(c) => Insert(c)
      case Enter => Insert('\n')
      case Backspace => if at == 0 then this else Flat(text[..at - 1] + text[at..], at - 1)
      case Left => Flat(text, Max(at - 1, 0))
      case Right => Flat(text, Min(at + 1, |text|))
      case Up =>
        var s := RowStart(text, at);
        if s == 0 then this else Column(RowStart(text, s - 1), at - s)
      case Down =>
        var e := RowStop(text, at);
        if e == |text| then this else Column(e + 1, at - RowStart(text, at))
      case Home => Flat(text, RowStart(text, at))
      case End => Flat(text, RowStop(text, at))
    }

    ghost function Run(keys: seq<Key>): (f: Flat)
      requires Valid()
      ensures f.Valid()
    {
      if keys == [] then this else Run(keys[..|keys| - 1]).Step(keys[|keys| - 1])
    }
  }

  ghost function Flatten(d: Doc): Flat
    requires d.Valid()
  {
    Flat(Join(d.lines), |Before(d.lines[..d.cy])| + d.cx)
  }

  /** Where a row sits in the flat text. */
  lemma {:induction false} JoinParts(head: seq<string>, row: string, tail: seq<string>)
    ensures Join(head + [row] + tail) == Before(head) + row + After(tail)
  {
    if head == [] {
      assert head + [row] + tail == [row] + tail;
      assert ([row] + tail)[1..] == tail;
    } else {
      var most, last := head[..|head| - 1], head[|head| - 1];
      JoinParts(most, last, [row] + tail);
      assert head + [row] + tail == most + [last] + ([row] + tail);
      assert ([row] + tail)[1..] == tail;
      Regroup(Before(most) + last, row, After(tail));
    }
  }

  lemma Regroup(b: string, row: string, a: string)
    ensures b + (['\n'] + row + a) == (b + ['\n']) + row + a
  {
  }

  lemma BeforeSnoc(head: seq<string>, row: string)
    ensures Before(head + [row]) == Before(head) + row + ['\n']
  {
    assert (head + [row])[..|head|] == head;
  }

  lemma AfterCons(row: string, tail: seq<string>)
    ensures After([row] + tail) == ['\n'] + row + After(tail)
  {
    assert ([row] + tail)[1..] == tail;
  }

  ghost function Above(d: Doc): string
    requires d.Valid()
  {
    Before(d.lines[..d.cy])
  }

  ghost function Below(d: Doc): string
    requires d.Valid()
  {
    After(d.lines[d.cy + 1..])
  }

  lemma FlattenParts(d: Doc)
    requires d.Valid()
    ensures Flatten(d) == Flat(Above(d) + d.Line() + Below(d), |Above(d)| + d.cx)
    ensures d.InSync() ==> Flatten(d).Valid()
  {
    JoinParts(d.lines[..d.cy], d.Line(), d.lines[d.cy + 1..]);
    assert d.lines == d.lines[..d.cy] + [d.Line()] + d.lines[d.cy + 1..];
  }

  // ----- splitting and joining are inverse ----------------------------------------------

  lemma {:induction false} JoinSplit(s: string)
    ensures Join(SplitLines(s)) == s
  {
    if s != [] {
      JoinSplit(s[1..]);
      var rest := SplitLines(s[1..]);
      assert s == [s[0]] + s[1..];
      assert rest == [rest[0]] + rest[1..];
      if s[0] == '\n' {
        assert SplitLines(s)[1..] == rest;
        AfterCons(rest[0], rest[1..]);
      } else {
        assert SplitLines(s)[1..] == rest[1..];
        Prepend(s[0], rest[0], After(rest[1..]));
      }
    }
  }

  lemma Prepend(c: char, row: string, a: string)
    ensures ([c] + row) + a == [c] + (row + a)
  {
  }

  lemma {:induction false} SplitIsNewlineFree(s: string)
    ensures forall i :: 0 <= i < |SplitLines(s)| ==> '\n' !in SplitLines(s)[i]
  {
    if s != [] {
      SplitIsNewlineFree(s[1..]);
    }
  }

  lemma {:induction false} SplitFirstRow(row: string, rest: string)
    requires '\n' !in row
    ensures SplitLines(row) == [row]
    ensures SplitLines(row + (['\n'] + rest)) == [row] + SplitLines(rest)
  {
    var text := row + (['\n'] + rest);
    if row == [] {
      assert text[0] == '\n' && text[1..] == rest;
    } else {
      SplitFirstRow(row[1..], rest);
      assert row == [row[0]] + row[1..];
      assert text[0] == row[0] && text[1..] == row[1..] + (['\n'] + rest);
    }
  }

  /** Joining and splitting again gives the lines back exactly when no line holds a line break. */
  lemma SplitJoin(lines: seq<string>)
    requires lines != []
    ensures SplitLines(Join(lines)) == lines <==> forall i :: 0 <= i < |lines| ==> '\n' !in lines[i]
  {
    if forall i :: 0 <= i < |lines| ==> '\n' !in lines[i] {
      SplitJoinFree(lines);
    } else {
      SplitIsNewlineFree(Join(lines));
    }
  }

  lemma {:induction false} SplitJoinFree(lines: seq<string>)
    requires lines != []
    requires forall i :: 0 <= i < |lines| ==> '\n' !in lines[i]
    ensures SplitLines(Join(lines)) == lines
  {
    var row, rest := lines[0], lines[1..];
    assert lines == [row] + rest;
    if rest == [] {
      SplitFirstRow(row, []);
      assert Join(lines) == row;
    } else {
      SplitJoinFree(rest);
      SplitFirstRow(row, Join(rest));
      assert rest == [rest[0]] + rest[1..];
      AfterCons(rest[0], rest[1..]);
      Prepend('\n', rest[0], After(rest[1..]));
    }
  }

  // ----- each key on the flat text ------------------------------------------------------

  /** One key does to the lines what it does to the flat text, and leaves the cursor on a character. */
  ghost predicate Refines(d: Doc, key: Key)
    requires d.Valid()
  {
    && Flatten(d).Valid()
    && d.Step(key).Some?
    && d.Step(key).value.InSync()
    && Flatten(d.Step(key).value) == Flatten(d).Step(key)
  }

  lemma SpliceRow(b: string, row: string, a: string, k: nat, mid: string)
    requires k <= |row|
    ensures
      var text, at := b + row + a, |b| + k;
      text[..at] + mid + text[at..] == b + (row[..k] + mid + row[k..]) + a
  {
    var text, at := b + row + a, |b| + k;
    assert row == row[..k] + row[k..];
    assert text[..at] == b + row[..k];
    assert text[at..] == row[k..] + a;
  }

  lemma CutRow(b: string, row: string, a: string, k: nat)
    requires 0 < k <= |row|
    ensures
      var text, at := b + row + a, |b| + k;
      text[..at - 1] + text[at..] == b + (row[..k - 1] + row[k..]) + a
  {
    var text, at := b + row + a, |b| + k;
    assert text[..at - 1] == b + row[..k - 1];
    assert text[at..] == row[k..] + a;
  }

  lemma InsertRefines(d: Doc, c: char)
    requires d.InSync()
    ensures d.InsertChar(c).InSync()
    ensures Flatten(d).Valid() && Flatten(d.InsertChar(c)) == Flatten(d).Insert(c)
  {
    hide RowStart, RowStop, Before, After, Join, Encode, IsAscii;
    var d' := d.InsertChar(c);
    FlattenParts(d);
    FlattenParts(d');
    assert d'.lines[..d.cy] == d.lines[..d.cy] && d'.lines[d.cy + 1..] == d.lines[d.cy + 1..];
    SpliceRow(Above(d), d.Line(), Below(d), d.cx, [c]);
  }

  lemma NewlineRefines(d: Doc)
    requires d.InSync()
    ensures d.Newline().InSync()
    ensures Flatten(d).Valid() && Flatten(d.Newline()) == Flatten(d).Insert('\n')
  {
    hide RowStart, RowStop, Before, After, Join, Encode, IsAscii;
    var d', front, back := d.Newline(), d.Line()[..d.cx], d.Line()[d.cx..];
    FlattenParts(d);
    FlattenParts(d');
    assert d'.lines[..d.cy + 1] == d.lines[..d.cy] + [front];
    assert d'.lines[d.cy + 2..] == d.lines[d.cy + 1..];
    BeforeSnoc(d.lines[..d.cy], front);
    SpliceRow(Above(d), d.Line(), Below(d), d.cx, ['\n']);
    SplitRow(Above(d), front, back, Below(d));
  }

  lemma SplitRow(b: string, front: string, back: string, a: string)
    ensures (b + front + ['\n']) + back + a == b + (front + ['\n'] + back) + a
  {
  }

  lemma EraseInRow(d: Doc)
    requires d.InSync() && d.cx > 0
    ensures d.Erase().Some? && d.Erase().value.InSync()
    ensures
      var f := Flatten(d);
      f.Valid() && f.at > 0 && Flatten(d.Erase().value) == Flat(f.text[..f.at - 1] + f.text[f.at..], f.at - 1)
  {
    hide RowStart, RowStop, Before, After, Join, Encode, IsAscii;
    var d' := d.Erase().value;
    FlattenParts(d);
    FlattenParts(d');
    assert d'.lines[..d.cy] == d.lines[..d.cy] && d'.lines[d.cy + 1..] == d.lines[d.cy + 1..];
    CutRow(Above(d), d.Line(), Below(d), d.cx);
  }

  lemma EraseJoinsRows(d: Doc)
    requires d.Valid() && d.cx == 0 && d.cy > 0
    ensures d.Erase().Some? && d.Erase().value.InSync()
    ensures
      var f := Flatten(d);
      f.Valid() && f.at > 0 && Flatten(d.Erase().value) == Flat(f.text[..f.at - 1] + f.text[f.at..], f.at - 1)
  {
    hide RowStart, RowStop, Before, After, Join, Encode, IsAscii;
    var d', above := d.Erase().value, d.lines[d.cy - 1];
    FlattenParts(d);
    FlattenParts(d');
    assert d'.lines[..d'.cy] == d.lines[..d.cy - 1] && d'.lines[d.cy..] == d.lines[d.cy + 1..];
    assert d.lines[..d.cy] == d.lines[..d.cy - 1] + [above];
    BeforeSnoc(d.lines[..d.cy - 1], above);
    CutBreak(Above(d'), above, d.Line(), Below(d));
  }

  lemma CutBreak(b: string, above: string, row: string, a: string)
    ensures
      var text, at := (b + above + ['\n']) + row + a, |b| + |above| + 1;
      text[..at - 1] + text[at..] == b + (above + row) + a
  {
    var text, at := (b + above + ['\n']) + row + a, |b| + |above| + 1;
    assert text[..at - 1] == b + above;
    assert text[at..] == row + a;
  }

  // ----- the ends of rows -----------------------------------------------------------------

  /** Scanning back or forth from inside a row finds the two ends of the row. */
  lemma {:induction false} StartOfRow(text: string, b: nat, k: nat)
    requires b + k <= |text| && forall i :: b <= i < b + k ==> text[i] != '\n'
    requires b == 0 || text[b - 1] == '\n'
    ensures RowStart(text, b + k) == b
  {
    if k > 0 {
      StartOfRow(text, b, k - 1);
    }
  }

  lemma {:induction false} StopOfRow(text: string, o: nat, e: nat)
    requires o <= e <= |text| && forall i :: o <= i < e ==> text[i] != '\n'
    requires e == |text| || text[e] == '\n'
    ensures RowStop(text, o) == e
    decreases e - o
  {
    if o < e {
      StopOfRow(text, o + 1, e);
    }
  }

  lemma {:induction false} BeforeEndsInBreak(head: seq<string>)
    ensures Before(head) == [] <==> head == []
    ensures head != [] ==> Before(head)[|Before(head)| - 1] == '\n'
  {
  }

  lemma RowInText(b: string, row: string, a: string, k: nat)
    requires k <= |row| && '\n' !in row
    requires b == [] || b[|b| - 1] == '\n'
    requires a == [] || a[0] == '\n'
    ensures
      var text := b + row + a;
      RowStart(text, |b| + k) == |b| && RowStop(text, |b| + k) == |b| + |row|
  {
    hide RowStart, RowStop;
    var text := b + row + a;
    assert forall i :: |b| <= i < |b| + |row| ==> text[i] == row[i - |b|];
    StartOfRow(text, |b|, k);
    StopOfRow(text, |b| + k, |b| + |row|);
  }

  /** The row at y: where it starts and stops in the flat text, seen from any of its columns. */
  lemma RowEnds(d: Doc, k: nat)
    requires d.Valid() && k <= |d.Line()| && d.NewlineFree()
    ensures
      var text, b := Join(d.lines), |Above(d)|;
      && b + |d.Line()| <= |text|
      && RowStart(text, b + k) == b && RowStop(text, b + k) == b + |d.Line()|
      && (b == 0 <==> d.cy == 0)
      && (b + |d.Line()| == |text| <==> d.cy + 1 == |d.lines|)
  {
    hide RowStart, RowStop, Before, Join, Encode, IsAscii;
    FlattenParts(d);
    BeforeEndsInBreak(d.lines[..d.cy]);
    RowInText(Above(d), d.Line(), Below(d), k);
  }

  lemma NextRow(d: Doc)
    requires d.Valid() && d.cy + 1 < |d.lines|
    ensures |Above(Doc(d.lines, 0, d.cy + 1))| == |Above(d)| + |d.Line()| + 1
  {
    hide RowStart, RowStop, Before, After, Join, Encode, IsAscii;
    assert d.lines[..d.cy + 1] == d.lines[..d.cy] + [d.Line()];
    BeforeSnoc(d.lines[..d.cy], d.Line());
  }

  // ----- moving the cursor ----------------------------------------------------------------

  lemma LeftRefines(d: Doc)
    requires d.InSync()
    ensures Refines(d, Left) <==> d.cx > 0 || d.cy == 0 || IsAscii(d.lines[d.cy - 1])
  {
    hide RowStart, RowStop, Before, After, Join, Encode, IsAscii;
    FlattenParts(d);
    EncodeLength(d.Line());
    if d.cx == 0 && d.cy > 0 {
      var above := Doc(d.lines, 0, d.cy - 1);
      EncodeLength(above.Line());
      NextRow(above);
      assert d.Step(Left) == Some(Doc(d.lines, d.LineLen(d.cy - 1), d.cy - 1));
    } else if d.cx == 0 {
      BeforeEndsInBreak(d.lines[..d.cy]);
      assert d.Step(Left) == Some(d);
    } else {
      assert d.Step(Left) == Some(Doc(d.lines, d.cx - 1, d.cy));
    }
  }

  lemma RightRefines(d: Doc)
    requires d.InSync() && d.NewlineFree()
    ensures Refines(d, Right) <==> d.cx < |d.Line()| || IsAscii(d.Line())
  {
    hide RowStart, RowStop, Before, After, Join, Encode, IsAscii;
    FlattenParts(d);
    EncodeLength(d.Line());
    RowEnds(d, d.cx);
    if d.cx == |d.Line()| && IsAscii(d.Line()) {
      if d.cy + 1 < |d.lines| {
        NextRow(d);
        assert d.Step(Right) == Some(Doc(d.lines, 0, d.cy + 1));
      } else {
        assert d.Step(Right) == Some(d);
      }
    } else {
      assert d.Step(Right) == Some(Doc(d.lines, d.cx + 1, d.cy));
    }
  }

  lemma EndRefines(d: Doc)
    requires d.InSync() && d.NewlineFree()
    ensures Refines(d, End) <==> IsAscii(d.Line())
  {
    hide RowStart, RowStop, Before, After, Join, Encode, IsAscii;
    FlattenParts(d);
    EncodeLength(d.Line());
    RowEnds(d, d.cx);
    assert d.Step(End) == Some(Doc(d.lines, d.LineLen(d.cy), d.cy));
  }

  lemma HomeRefines(d: Doc)
    requires d.InSync() && d.NewlineFree()
    ensures Refines(d, Home)
  {
    hide RowStart, RowStop, Before, After, Join, Encode, IsAscii;
    FlattenParts(d);
    RowEnds(d, d.cx);
    assert d.Step(Home) == Some(Doc(d.lines, 0, d.cy));
  }

  lemma ColumnInRow(d: Doc, column: nat)
    requires d.Valid() && d.NewlineFree()
    ensures |Above(d)| <= |Join(d.lines)|
    ensures Flat(Join(d.lines), 0).Column(|Above(d)|, column)
         == Flatten(Doc(d.lines, Min(column, |d.Line()|), d.cy))
  {
    hide RowStart, RowStop, Before, After, Join, Encode, IsAscii;
    RowEnds(d, 0);
    assert |Above(d)| + 0 == |Above(d)|;
  }

  lemma UpRefines(d: Doc)
    requires d.InSync() && d.NewlineFree()
    ensures Refines(d, Up)
  {
    hide RowStart, RowStop, Before, After, Join, Encode, IsAscii;
    FlattenParts(d);
    RowEnds(d, d.cx);
    var f := Flatten(d);
    if d.cy > 0 {
      var above := Doc(d.lines, 0, d.cy - 1);
      NextRow(above);
      RowEnds(above, |above.Line()|);
      ColumnInRow(above, d.cx);
      assert d.Step(Up) == Some(Doc(d.lines, Min(d.cx, |above.Line()|), d.cy - 1));
      UpFrom(f, |Above(d)|, |Above(above)|);
    } else {
      assert d.Step(Up) == Some(d) && f.Step(Up) == f;
    }
  }

  lemma UpFrom(f: Flat, s: nat, p: nat)
    requires f.Valid() && RowStart(f.text, f.at) == s && 0 < s && RowStart(f.text, s - 1) == p
    ensures f.Step(Up) == Flat(f.text, 0).Column(p, f.at - s)
  {
    hide RowStart, RowStop, Before, After, Join, Encode, IsAscii;
  }

  lemma DownRefines(d: Doc)
    requires d.InSync() && d.NewlineFree()
    ensures Refines(d, Down)
  {
    hide RowStart, RowStop, Before, After, Join, Encode, IsAscii;
    FlattenParts(d);
    RowEnds(d, d.cx);
    var f := Flatten(d);
    if d.cy + 1 < |d.lines| {
      var below := Doc(d.lines, 0, d.cy + 1);
      NextRow(d);
      ColumnInRow(below, d.cx);
      assert d.Step(Down) == Some(Doc(d.lines, Min(d.cx, |below.Line()|), d.cy + 1));
      DownFrom(f, |Above(d)|, |Above(d)| + |d.Line()|);
    } else {
      assert d.Step(Down) == Some(d) && f.Step(Down) == f;
    }
  }

  lemma DownFrom(f: Flat, s: nat, e: nat)
    requires f.Valid() && RowStart(f.text, f.at) == s && RowStop(f.text, f.at) == e < |f.text|
    ensures f.Step(Down) == Flat(f.text, 0).Column(e + 1, f.at - s)
  {
    hide RowStart, RowStop, Before, After, Join, Encode, IsAscii;
  }

  /** `line_len` counts bytes, so three keys are exact only where bytes and characters agree. */
  predicate Exact(d: Doc, key: Key)
    requires d.Valid()
  {
    match key
    case Left => d.cx > 0 || d.cy == 0 || IsAscii(d.lines[d.cy - 1])
    case Right => d.cx < |d.Line()| || IsAscii(d.Line())
    case End => IsAscii(d.Line())
    case _ => true
  }

  /** The exact condition under which a key is right, for every text, cursor and key. */
  lemma StepRefinesExactly(d: Doc, key: Key)
    requires d.InSync() && d.NewlineFree()
    ensures Refines(d, key) <==> Exact(d, key)
  {
    match key
    case Char(c) => InsertRefines(d, c);
    case Enter => NewlineRefines(d);
    case Backspace =>
      if d.cx > 0 { EraseInRow(d); } else if d.cy > 0 { EraseJoinsRows(d); } else { FlattenParts(d); }
    case Left => LeftRefines(d);
    case Right => RightRefines(d);
    case Up => UpRefines(d);
    case Down => DownRefines(d);
    case Home => HomeRefines(d);
    case End => EndRefines(d);
  }

  // ----- any sequence of keys -----------------------------------------------------------

  /** Typed characters are never line breaks: those arrive as `Enter`. */
  predicate Typable(key: Key) {
    key != Char('\n')
  }

  predicate AsciiKey(key: Key) {
    key.Char? ==> key.c as int < 0x80
  }

  predicate ByteBlind(key: Key) {
    !key.Left? && !key.Right? && !key.End?
  }

  lemma CutKeepsShape(row: string, k: nat)
    requires k <= |row|
    ensures '\n' !in row ==> '\n' !in row[..k] && '\n' !in row[k..]
    ensures IsAscii(row) ==> IsAscii(row[..k]) && IsAscii(row[k..])
  {
  }

  lemma ConcatKeepsShape(a: string, b: string)
    ensures '\n' !in a && '\n' !in b ==> '\n' !in a + b
    ensures IsAscii(a) && IsAscii(b) ==> IsAscii(a + b)
  {
  }

  /** Every row of the result is an old row or one that keeps the shape. */
  lemma RowsKeepShape(d: Doc, lines: seq<string>, made: seq<string>, free: bool, ascii: bool)
    requires free ==> d.NewlineFree() && forall i :: 0 <= i < |made| ==> '\n' !in made[i]
    requires ascii ==> d.Ascii() && forall i :: 0 <= i < |made| ==> IsAscii(made[i])
    requires forall i :: 0 <= i < |lines| ==> lines[i] in made || lines[i] in d.lines
    ensures free ==> forall i :: 0 <= i < |lines| ==> '\n' !in lines[i]
    ensures ascii ==> forall i :: 0 <= i < |lines| ==> IsAscii(lines[i])
  {
    hide IsAscii;
    forall i | 0 <= i < |lines| ensures (free ==> '\n' !in lines[i]) && (ascii ==> IsAscii(lines[i])) {
      if lines[i] in made {
        var j :| 0 <= j < |made| && made[j] == lines[i];
      } else {
        var j :| 0 <= j < |d.lines| && d.lines[j] == lines[i];
      }
    }
  }

  lemma StepKeepsShape(d: Doc, key: Key)
    requires d.Valid() && d.Step(key).Some?
    ensures d.NewlineFree() && Typable(key) ==> d.Step(key).value.NewlineFree()
    ensures d.Ascii() && AsciiKey(key) ==> d.Step(key).value.Ascii()
  {
    hide IsAscii;
    var r, row := d.Step(key).value, d.Line();
    var free, ascii := d.NewlineFree() && Typable(key), d.Ascii() && AsciiKey(key);
    match key
    case Char(c) =>
      var k := Min(d.cx, |row|);
      CutKeepsShape(row, k);
      OneCharacter(c);
      ConcatKeepsShape(row[..k], [c]);
      ConcatKeepsShape(row[..k] + [c], row[k..]);
      RowsKeepShape(d, r.lines, [row[..k] + [c] + row[k..]], free, ascii);
    case Enter =>
      var k := Min(d.cx, |row|);
      CutKeepsShape(row, k);
      RowsKeepShape(d, r.lines, [row[..k], row[k..]], free, ascii);
    case Backspace =>
      if d.cx > 0 {
        CutKeepsShape(row, d.cx - 1);
        CutKeepsShape(row, d.cx);
        ConcatKeepsShape(row[..d.cx - 1], row[d.cx..]);
        RowsKeepShape(d, r.lines, [row[..d.cx - 1] + row[d.cx..]], free, ascii);
      } else if d.cy > 0 {
        ConcatKeepsShape(d.lines[d.cy - 1], row);
        RowsKeepShape(d, r.lines, [d.lines[d.cy - 1] + row], free, ascii);
      }
    case _ =>
  }

  lemma OneCharacter(c: char)
    ensures c != '\n' ==> '\n' !in [c]
    ensures c as int < 0x80 ==> IsAscii([c])
  {
  }

  /** After every one of these keys the editor is the flat text with one offset. */
  ghost predicate Tracks(d: Doc, keys: seq<Key>)
    requires d.Valid()
  {
    && Flatten(d).Valid()
    && (keys != [] ==>
          && Tracks(d, keys[..|keys| - 1])
          && d.Run(keys).Some? && d.Run(keys).value.InSync()
          && Flatten(d.Run(keys).value) == Flatten(d).Run(keys))
  }

  /** Each key is exact where it is typed. */
  ghost predicate ExactThroughout(d: Doc, keys: seq<Key>)
    requires d.Valid()
  {
    keys != [] ==>
      var before := d.Run(keys[..|keys| - 1]);
      ExactThroughout(d, keys[..|keys| - 1]) && before.Some? && Exact(before.value, keys[|keys| - 1])
  }

  /**
   * Over any key sequence on any Unicode text the editor follows the flat text exactly as long as
   * each key is exact where it is typed: the first one that is not is where they part.
   */
  lemma {:induction false} RunTracksExactly(d: Doc, keys: seq<Key>)
    requires d.InSync() && d.NewlineFree()
    requires forall i :: 0 <= i < |keys| ==> Typable(keys[i])
    ensures Tracks(d, keys) <==> ExactThroughout(d, keys)
    ensures Tracks(d, keys) ==>
      && d.Run(keys).Some? && d.Run(keys).value.InSync() && d.Run(keys).value.NewlineFree()
      && Flatten(d.Run(keys).value) == Flatten(d).Run(keys)
  {
    hide Exact, Flatten, Doc.Step, Flat.Step, Doc.NewlineFree;
    FlattenParts(d);
    if keys != [] {
      var most, key := keys[..|keys| - 1], keys[|keys| - 1];
      RunTracksExactly(d, most);
      if Tracks(d, most) {
        var r := d.Run(most).value;
        StepRefinesExactly(r, key);
        if r.Step(key).Some? { StepKeepsShape(r, key); }
      }
    }
  }

  /**
   * Over any key sequence the editor is the flat text with one offset, and its lines stay the
   * split of that text: on ASCII text with every key, on any Unicode text without the three
   * keys that look at byte lengths.
   */
  lemma {:induction false} RunRefines(d: Doc, keys: seq<Key>)
    requires d.InSync() && d.NewlineFree()
    requires forall i :: 0 <= i < |keys| ==> Typable(keys[i])
    requires
      || (d.Ascii() && forall i :: 0 <= i < |keys| ==> AsciiKey(keys[i]))
      || forall i :: 0 <= i < |keys| ==> ByteBlind(keys[i])
    ensures Flatten(d).Valid()
    ensures d.Run(keys).Some?
    ensures
      var r := d.Run(keys).value;
      && r.InSync() && r.NewlineFree()
      && Flatten(r) == Flatten(d).Run(keys)
      && SplitLines(Flatten(r).text) == r.lines
      && (d.Ascii() && (forall i :: 0 <= i < |keys| ==> AsciiKey(keys[i])) ==> r.Ascii())
  {
    FlattenParts(d);
    if keys == [] {
      SplitJoin(d.lines);
    } else {
      var most, key := keys[..|keys| - 1], keys[|keys| - 1];
      RunRefines(d, most);
      var r := d.Run(most).value;
      StepRefinesExactly(r, key);
      StepKeepsShape(r, key);
      SplitJoin(r.Step(key).value.lines);
    }
  }

  /** From the document the editor was opened on. */
  lemma OpenedEditorIsFlatText(content: string, keys: seq<Key>)
    requires forall i :: 0 <= i < |keys| ==> Typable(keys[i])
    requires
      || (IsAscii(content) && forall i :: 0 <= i < |keys| ==> AsciiKey(keys[i]))
      || forall i :: 0 <= i < |keys| ==> ByteBlind(keys[i])
    ensures Flatten(Open(content)) == Flat(content, 0)
    ensures Open(content).Run(keys).Some?
    ensures Flatten(Open(content).Run(keys).value) == Flat(content, 0).Run(keys)
    ensures SplitLines(Flat(content, 0).Run(keys).text) == Open(content).Run(keys).value.lines
  {
    JoinSplit(content);
    SplitIsNewlineFree(content);
    if IsAscii(content) { SplitIsAscii(content); }
    RunRefines(Open(content), keys);
  }

  lemma {:induction false} SplitIsAscii(s: string)
    requires IsAscii(s)
    ensures forall i :: 0 <= i < |SplitLines(s)| ==> IsAscii(SplitLines(s)[i])
  {
    if s != [] {
      SplitIsAscii(s[1..]);
    }
  }

  // ----- what every completing key keeps, and the one that does not complete --------------

  ghost predicate InBytes(d: Doc) {
    d.Valid() && d.cx <= d.LineLen(d.cy)
  }

  lemma InsertedByteLength(t: string, k: nat, c: char)
    requires k <= |t|
    ensures |Encode(t[..k] + [c] + t[k..])| > |Encode(t)|
  {
    EncodeConcat(t[..k] + [c], t[k..]);
    EncodeConcat(t[..k], [c]);
    EncodeConcat(t[..k], t[k..]);
    assert t == t[..k] + t[k..];
    EncodeLength([c]);
  }

  /**
   * The cursor never leaves the lines, nor its line's byte length; and `Backspace` with the
   * cursor past the last character is the one key that does not complete.
   */
  lemma StepStaysInBytes(d: Doc, key: Key)
    requires InBytes(d)
    ensures d.Step(key).Some? ==> InBytes(d.Step(key).value)
    ensures d.Step(key).None? <==> key == Backspace && d.cx > |d.Line()|
  {
    var r := d.Step(key);
    match key
    case Char(c) => InsertedByteLength(d.Line(), Min(d.cx, |d.Line()|), c);
    case Left =>
    case Right =>
    case _ => if r.Some? { EncodeLength(r.value.Line()); }
  }

  lemma {:induction false} RunStaysInBytes(d: Doc, keys: seq<Key>)
    requires InBytes(d)
    ensures d.Run(keys).Some? ==> InBytes(d.Run(keys).value)
  {
    if keys != [] {
      RunStaysInBytes(d, keys[..|keys| - 1]);
      var before := d.Run(keys[..|keys| - 1]);
      if before.Some? { StepStaysInBytes(before.value, keys[|keys| - 1]); }
    }
  }

  /** One accented letter, `End`, `Backspace`: the cursor is past the last character. */
  lemma BackspaceCanFail()
    ensures Open("\U{E9}").Run([End, Backspace]).None?
    ensures !Exact(Open("\U{E9}"), End)
  {
    var d := Open("\U{E9}");
    assert "\U{E9}"[1..] == "" && ["\U{E9}"[0]] + "" == "\U{E9}";
    assert d.lines == ["\U{E9}"];
    EncodeLength("\U{E9}");
    assert "\U{E9}"[0] as int == 0xE9;
    var keys := [End, Backspace];
    assert keys[..1] == [End] && [End][..0] == [];
    assert d.Run([]) == Some(d);
    var e := d.Step(End).value;
    assert d.Run([End]) == Some(e) && e.cx > |e.Line()|;
  }

  // ----- the mutable editor ---------------------------------------------------------------

  function EncodeAll(lines: seq<string>): (r: seq<seq<byte>>)
  {
    seq(|lines|, i requires 0 <= i < |lines| => Encode(lines[i]))
  }

  /** `lines.join("\n")` on bytes */
  function JoinBytes(lines: seq<seq<byte>>): seq<byte>
  {
    if lines == [] then []
    else if |lines| == 1 then lines[0]
    else lines[0] + [0x0A] + JoinBytes(lines[1..])
  }

  lemma {:induction false} JoinBytesEncodesJoin(lines: seq<string>)
    ensures JoinBytes(EncodeAll(lines)) == Encode(Join(lines))
  {
    if |lines| > 1 {
      JoinBytesEncodesJoin(lines[1..]);
      assert EncodeAll(lines)[1..] == EncodeAll(lines[1..]);
      assert Join(lines) == lines[0] + (['\n'] + Join(lines[1..]));
      EncodeConcat(lines[0], ['\n'] + Join(lines[1..]));
      EncodeConcat(['\n'], Join(lines[1..]));
      assert Encode(['\n']) == EncodeChar('\n') + Encode([]);
    } else if |lines| == 1 {
      assert Join(lines) == lines[0];
    }
  }

  lemma EraseBytesInRow(d: Doc)
    requires d.Valid() && 0 < d.cx <= |d.Line()|
    ensures WellFormed(Encode(d.Line()))
    ensures
      var b := Encode(d.Line());
      var i := ByteIndex(b, d.cx - 1);
      && i < |b| && IsCharBoundary(b, i) && i + LeadWidth(b[i]) <= |b|
      && EncodeAll(d.lines)[d.cy := RemoveAt(b, i)] == EncodeAll(d.Erase().value.lines)
  {
    hide Encode, WellFormed, ByteIndex, RemoveAt, LeadWidth;
    RemoveAtByteIndex(d.Line(), d.cx - 1);
  }

  lemma EraseBytesAcrossRows(d: Doc)
    requires d.Valid() && d.cx == 0 && d.cy > 0
    ensures
      var b := EncodeAll(d.lines);
      b[..d.cy - 1] + [b[d.cy - 1] + b[d.cy]] + b[d.cy + 1..] == EncodeAll(d.Erase().value.lines)
  {
    hide Encode;
    EncodeConcat(d.lines[d.cy - 1], d.Line());
  }

  lemma JoinRowsInPlace(b: seq<seq<byte>>, y: nat)
    requires 0 < y < |b|
    ensures (b[..y] + b[y + 1..])[y - 1 := b[y - 1] + b[y]] == b[..y - 1] + [b[y - 1] + b[y]] + b[y + 1..]
  {
  }

  lemma NewlineBytes(d: Doc)
    requires d.Valid()
    ensures WellFormed(Encode(d.Line()))
    ensures
      var b, line := EncodeAll(d.lines), Encode(d.Line());
      var i := ByteIndex(line, d.cx);
      b[..d.cy] + [line[..i], line[i..]] + b[d.cy + 1..] == EncodeAll(d.Newline().lines)
  {
    hide Encode, WellFormed, ByteIndex;
    ByteIndexCuts(d.Line(), d.cx);
  }

  lemma InsertRowInPlace(b: seq<seq<byte>>, y: nat, front: seq<byte>, back: seq<byte>)
    requires y < |b|
    ensures b[y := front][..y + 1] + [back] + b[y := front][y + 1..] == b[..y] + [front, back] + b[y + 1..]
  {
  }

  class Editor {
    const uid: string
    const agent: string
    var lines: seq<seq<byte>>
    var cx: nat
    var cy: nat
    ghost var doc: Doc

    /** The byte lines are the encoding of `doc`. */
    ghost predicate Valid()
      reads this
    {
      doc.Valid() && lines == EncodeAll(doc.lines) && cx == doc.cx && cy == doc.cy
    }

    constructor (uid: string, agent: string, content: string)
      ensures Valid() && doc == Open(content)
      ensures this.uid == uid && this.agent == agent
    {
      this.uid, this.agent := uid, agent;
      lines := EncodeAll(SplitLines(content));
      cx, cy := 0, 0;
      doc := Open(content);
    }

    /** The text that a push carries. */
    method Text() returns (text: seq<byte>)
      requires Valid()
      ensures text == Encode(Flatten(doc).text)
    {
      text := JoinBytes(lines);
      JoinBytesEncodesJoin(doc.lines);
    }

    method LineLen(row: nat) returns (n: nat)
      requires Valid()
      ensures n == doc.LineLen(row)
    {
      n := if row < |lines| then |lines[row]| else 0;
    }

    method InsertChar(c: char)
      requires Valid()
      modifies this
      ensures Valid() && doc == old(doc).InsertChar(c)
    {
      hide Encode, EncodeChar, Decode, WellFormed, ByteIndex, InsertAt, RemoveAt, LeadWidth;
      var line := lines[cy];
      InsertAtByteIndex(doc.Line(), cx, c);
      var idx := ByteIndex(line, cx);
      lines := lines[cy := InsertAt(line, idx, c)];
      cx := cx + 1;
      doc := doc.InsertChar(c);
    }

    method Newline()
      requires Valid()
      modifies this
      ensures Valid() && doc == old(doc).Newline()
    {
      hide Encode, EncodeChar, Decode, WellFormed, ByteIndex, InsertAt, RemoveAt, LeadWidth;
      NewlineBytes(doc);
      var line := lines[cy];
      var idx := ByteIndex(line, cx);
      var rest := line[idx..];
      InsertRowInPlace(lines, cy, line[..idx], rest);
      lines := lines[cy := line[..idx]];
      lines := lines[..cy + 1] + [rest] + lines[cy + 1..];
      cy := cy + 1;
      cx := 0;
      doc := doc.Newline();
    }

    /** `failed` is the panic of `String::remove` on an index that is not a character's. */
    method Backspace() returns (failed: bool)
      requires Valid()
      modifies this
      ensures Valid()
      ensures failed <==> old(doc).Erase().None?
      ensures doc == if failed then old(doc) else old(doc).Erase().value
    {
      hide Encode, EncodeChar, Decode, WellFormed, ByteIndex, InsertAt, RemoveAt, LeadWidth;
      failed := false;
      if cx > 0 {
        var line := lines[cy];
        ByteIndexCuts(doc.Line(), cx - 1);
        var idx := ByteIndex(line, cx - 1);
        if idx == |line| {
          failed := true;
          return;
        }
        EraseBytesInRow(doc);
        lines := lines[cy := RemoveAt(line, idx)];
        cx := cx - 1;
        doc := doc.Erase().value;
      } else if cy > 0 {
        EraseBytesAcrossRows(doc);
        JoinRowsInPlace(lines, cy);
        DecodeEncode(doc.lines[cy - 1]);
        var above, current := lines[cy - 1], lines[cy];
        lines := lines[..cy] + lines[cy + 1..];
        cy := cy - 1;
        cx := CharCount(above);
        lines := lines[cy := above + current];
        doc := doc.Erase().value;
      }
    }

    method MoveCursor(dx: int, dy: int)
      requires Valid()
      modifies this
      ensures Valid() && doc == old(doc).MoveRows(dy).MoveCols(dx)
    {
      hide Encode, EncodeChar, Decode, WellFormed, ByteIndex, InsertAt, RemoveAt, LeadWidth;
      if dy != 0 {
        cy := Clamp(cy + dy, 0, |lines| - 1);
        DecodeEncode(doc.lines[cy]);
        cx := Min(cx, CharCount(lines[cy]));
      }
      doc := doc.MoveRows(dy);
      if dx != 0 {
        var newX := cx + dx;
        var here := LineLen(cy);
        if newX < 0 {
          if cy > 0 {
            cx := LineLen(cy - 1);
            cy := cy - 1;
          }
        } else if newX > here {
          if cy + 1 < |lines| {
            cy := cy + 1;
            cx := 0;
          }
        } else {
          cx := newX;
        }
      }
      doc := doc.MoveCols(dx);
    }

    /** The keys of the open editor that edit or move (`F5` and `Esc` close it). */
    method HandleKey(key: Key) returns (failed: bool)
      requires Valid()
      modifies this
      ensures Valid()
      ensures failed <==> old(doc).Step(key).None?
      ensures doc == if failed then old(doc) else old(doc).Step(key).value
    {
      failed := false;
      match key {
        case Char(c) => InsertChar(c);
        case Enter => Newline();
        case Backspace => failed := Backspace();
        case Left => MoveCursor(-1, 0);
        case Right => MoveCursor(1, 0);
        case Up => MoveCursor(0, -1);
        case Down => MoveCursor(0, 1);
        case Home =>
          cx := 0;
          doc := Doc(doc.lines, 0, cy);
        case End =>
          cx := LineLen(cy);
          doc := Doc(doc.lines, cx, cy);
      }
    }
  }
}
