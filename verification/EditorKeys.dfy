/**
 * What each terminal key does to the text in the open editor, and what a series of keys types:
 * stated on the text and one offset, and on the editor's lines where its byte columns matter.
 */
module EditorKeys {
  import opened Prelude
  import opened Utf8
  import opened Console
  import TextEditor

  type Doc = TextEditor.Doc

  type Flat = TextEditor.Flat

  // ----- one key on the text ------------------------------------------------------------------

  /** text[s..e] is a line: it lies between line breaks or the ends of the text. */
  ghost predicate Line(text: string, s: nat, e: nat) {
    && s <= e <= |text|
    && (s == 0 || text[s - 1] == '\n') && (e == |text| || text[e] == '\n')
    && forall i :: s <= i < e ==> text[i] != '\n'
  }

  ghost predicate OnLine(text: string, at: nat, s: nat, e: nat) {
    s <= at <= e && Line(text, s, e)
  }

  /** From column at - s to the same column of the line that ends before s, or to that line's end. */
  ghost predicate ToLineAbove(text: string, at: nat, s: nat, to: nat) {
    exists p: nat, stop: nat :: Line(text, p, stop) && stop + 1 == s <= at && to == Min(p + (at - s), stop)
  }

  /** From column at - s to the same column of the line that starts after e, or to that line's end. */
  ghost predicate ToLineBelow(text: string, at: nat, s: nat, e: nat, to: nat) {
    exists start: nat, q: nat :: Line(text, start, q) && start == e + 1 && s <= at && to == Min(start + (at - s), q)
  }

  /** The first line has none above it. */
  ghost predicate LineUp(text: string, at: nat, to: nat) {
    exists s: nat, e: nat :: OnLine(text, at, s, e) && if s == 0 then to == at else ToLineAbove(text, at, s, to)
  }

  /** The last line has none below it. */
  ghost predicate LineDown(text: string, at: nat, to: nat) {
    exists s: nat, e: nat ::
      OnLine(text, at, s, e) && if e == |text| then to == at else ToLineBelow(text, at, s, e, to)
  }

  /** What the key makes of a text with the cursor at an offset. */
  ghost predicate Edits(before: Flat, key: Key, after: Flat) {
    var text, at := before.text, before.at;
    && at <= |text|
    && match key
       case Char(c) => after.text == text[..at] + [c] + text[at..] && after.at == at + 1
       case Enter => after.text == text[..at] + ['\n'] + text[at..] && after.at == at + 1
       case Backspace =>
         if at == 0 then after == before else after.text == text[..at - 1] + text[at..] && after.at == at - 1
       case Left => after.text == text && after.at == if at == 0 then 0 else at - 1
       case Right => after.text == text && after.at == if at == |text| then at else at + 1
       case Up => after.text == text && LineUp(text, at, after.at)
       case Down => after.text == text && LineDown(text, at, after.at)
       case Home => after.text == text && exists e: nat :: OnLine(text, at, after.at, e)
       case End => after.text == text && exists s: nat :: OnLine(text, at, s, after.at)
       case _ => after == before
  }

  /** Two lines that share an offset are the same. */
  lemma OneLine(text: string, o: nat, s: nat, e: nat, s': nat, e': nat)
    requires OnLine(text, o, s, e) && OnLine(text, o, s', e')
    ensures s == s' && e == e' && e <= |text|
  {
    assert s' > 0 ==> !(s <= s' - 1 < e);
    assert s > 0 ==> !(s' <= s - 1 < e');
  }

  lemma OneLineAbove(text: string, at: nat, s: nat, x: nat, y: nat)
    requires ToLineAbove(text, at, s, x) && ToLineAbove(text, at, s, y)
    ensures x == y
  {
    hide Line;
    var p: nat, stop: nat :| Line(text, p, stop) && stop + 1 == s && x == Min(p + (at - s), stop);
    var p': nat, stop': nat :| Line(text, p', stop') && stop' + 1 == s && y == Min(p' + (at - s), stop');
    LineOrder(text, p, stop);
    LineOrder(text, p', stop');
    OneLine(text, stop, p, stop, p', stop);
  }

  lemma OneLineBelow(text: string, at: nat, s: nat, e: nat, x: nat, y: nat)
    requires ToLineBelow(text, at, s, e, x) && ToLineBelow(text, at, s, e, y)
    ensures x == y
  {
    hide Line;
    var q: nat :| Line(text, e + 1, q) && x == Min(e + 1 + (at - s), q);
    var q': nat :| Line(text, e + 1, q') && y == Min(e + 1 + (at - s), q');
    LineOrder(text, e + 1, q);
    LineOrder(text, e + 1, q');
    OneLine(text, e + 1, e + 1, q, e + 1, q');
  }

  lemma LineOrder(text: string, s: nat, e: nat)
    requires Line(text, s, e)
    ensures s <= e <= |text|
  {
  }

  lemma OneWayUp(text: string, at: nat, x: nat, y: nat)
    requires LineUp(text, at, x) && LineUp(text, at, y)
    ensures x == y
  {
    hide OnLine, ToLineAbove;
    var s: nat, e: nat :| OnLine(text, at, s, e) && if s == 0 then x == at else ToLineAbove(text, at, s, x);
    var s': nat, e': nat :| OnLine(text, at, s', e') && if s' == 0 then y == at else ToLineAbove(text, at, s', y);
    OneLine(text, at, s, e, s', e');
    if s > 0 { OneLineAbove(text, at, s, x, y); }
  }

  lemma OneWayDown(text: string, at: nat, x: nat, y: nat)
    requires LineDown(text, at, x) && LineDown(text, at, y)
    ensures x == y
  {
    hide OnLine, ToLineBelow;
    var s: nat, e: nat :| OnLine(text, at, s, e) && if e == |text| then x == at else ToLineBelow(text, at, s, e, x);
    var s': nat, e': nat :|
      OnLine(text, at, s', e') && if e' == |text| then y == at else ToLineBelow(text, at, s', e', y);
    OneLine(text, at, s, e, s', e');
    if e < |text| { OneLineBelow(text, at, s, e, x, y); }
  }

  /** The key determines the text and the offset it leaves. */
  lemma EditsDetermine(before: Flat, key: Key, x: Flat, y: Flat)
    requires Edits(before, key, x) && Edits(before, key, y)
    ensures x == y
  {
    hide OnLine, LineUp, LineDown;
    var text, at := before.text, before.at;
    match key
    case Up => OneWayUp(text, at, x.at, y.at);
    case Down => OneWayDown(text, at, x.at, y.at);
    case Home =>
      var e: nat :| OnLine(text, at, x.at, e);
      var e': nat :| OnLine(text, at, y.at, e');
      OneLine(text, at, x.at, e, y.at, e');
    case End =>
      var s: nat :| OnLine(text, at, s, x.at);
      var s': nat :| OnLine(text, at, s', y.at);
      OneLine(text, at, s, x.at, s', y.at);
    case _ =>
  }

  lemma {:induction false} StartOnLine(text: string, o: nat)
    requires o <= |text|
    ensures
      var s := TextEditor.RowStart(text, o);
      (s == 0 || text[s - 1] == '\n') && forall i :: s <= i < o ==> text[i] != '\n'
  {
    if o > 0 && text[o - 1] != '\n' { StartOnLine(text, o - 1); }
  }

  lemma {:induction false} StopOnLine(text: string, o: nat)
    requires o <= |text|
    ensures
      var e := TextEditor.RowStop(text, o);
      (e == |text| || text[e] == '\n') && forall i :: o <= i < e ==> text[i] != '\n'
    decreases |text| - o
  {
    if o < |text| && text[o] != '\n' { StopOnLine(text, o + 1); }
  }

  lemma LineOf(text: string, o: nat)
    requires o <= |text|
    ensures OnLine(text, o, TextEditor.RowStart(text, o), TextEditor.RowStop(text, o))
  {
    hide TextEditor.RowStart, TextEditor.RowStop;
    StartOnLine(text, o);
    StopOnLine(text, o);
  }

  lemma UpIsLineUp(f: Flat)
    requires f.Valid()
    ensures f.Step(TextEditor.Up).text == f.text && LineUp(f.text, f.at, f.Step(TextEditor.Up).at)
  {
    hide TextEditor.RowStart, TextEditor.RowStop, Line;
    var s := TextEditor.RowStart(f.text, f.at);
    LineOf(f.text, f.at);
    if s > 0 {
      StartOnLine(f.text, f.at);
      RowAbove(f.text, s);
      var stop: nat := s - 1;
      var p := TextEditor.RowStart(f.text, stop);
      assert Line(f.text, p, stop);
      assert ToLineAbove(f.text, f.at, s, f.Step(TextEditor.Up).at);
    }
  }

  /** The line above is the one that the break before s ends. */
  lemma RowAbove(text: string, s: nat)
    requires 0 < s <= |text| && text[s - 1] == '\n'
    ensures
      var p := TextEditor.RowStart(text, s - 1);
      Line(text, p, s - 1) && TextEditor.RowStop(text, p) == s - 1
  {
    hide TextEditor.RowStart, TextEditor.RowStop;
    StartOnLine(text, s - 1);
    var p := TextEditor.RowStart(text, s - 1);
    LineOf(text, p);
    OneLine(text, p, p, s - 1, TextEditor.RowStart(text, p), TextEditor.RowStop(text, p));
  }

  lemma DownIsLineDown(f: Flat)
    requires f.Valid()
    ensures f.Step(TextEditor.Down).text == f.text && LineDown(f.text, f.at, f.Step(TextEditor.Down).at)
  {
    hide TextEditor.RowStart, TextEditor.RowStop;
    var s, e := TextEditor.RowStart(f.text, f.at), TextEditor.RowStop(f.text, f.at);
    LineOf(f.text, f.at);
    if e < |f.text| {
      StopOnLine(f.text, e + 1);
      assert Line(f.text, e + 1, TextEditor.RowStop(f.text, e + 1));
      assert ToLineBelow(f.text, f.at, s, e, f.Step(TextEditor.Down).at);
    }
  }

  lemma FlatEdits(f: Flat, key: Key)
    requires f.Valid() && EditorKey(key).Some?
    ensures Edits(f, key, f.Step(EditorKey(key).value))
  {
    hide TextEditor.RowStart, TextEditor.RowStop, OnLine, LineUp, LineDown;
    match key
    case Up => UpIsLineUp(f);
    case Down => DownIsLineDown(f);
    case Home => LineOf(f.text, f.at);
    case End => LineOf(f.text, f.at);
    case _ =>
  }

  // ----- one key in the open editor ------------------------------------------------------------

  /** Where the byte columns of the editor agree with the characters for this key. */
  predicate Faithful(d: Doc, key: Key)
    requires d.Valid()
  {
    match key
    case Left => d.cx > 0 || d.cy == 0 || IsAscii(d.lines[d.cy - 1])
    case Right => d.cx < |d.lines[d.cy]| || IsAscii(d.lines[d.cy])
    case End => IsAscii(d.lines[d.cy])
    case _ => true
  }

  /** The key took an editor from one document to another, and did to the text what it should. */
  ghost predicate TakesKey(d: Doc, key: Key, d': Doc)
    requires d.Valid() && d'.Valid()
  {
    d'.InSync() && Edits(TextEditor.Flatten(d), key, TextEditor.Flatten(d'))
  }

  /** The key on the editor's lines, in the columns it counts; `Backspace` can fail. */
  function Pressed(d: Doc, key: Key): (d': Option<OpenDoc>)
    requires d.Valid()
  {
    match key
    case Char(c) => Some(d.InsertChar(c))
    case Enter => Some(d.Newline())
    case Backspace => d.Erase()
    case Left => Some(d.MoveCols(-1))
    case Right => Some(d.MoveCols(1))
    case Up => Some(d.MoveRows(-1))
    case Down => Some(d.MoveRows(1))
    case Home => Some(TextEditor.Doc(d.lines, 0, d.cy))
    case End => Some(TextEditor.Doc(d.lines, d.LineLen(d.cy), d.cy))
    case _ => Some(d)
  }

  /** On any text and cursor: the text as the key edits it, exactly where bytes and characters agree. */
  lemma PressedEdits(d: Doc, key: Key)
    requires d.InSync() && d.NewlineFree()
    ensures Pressed(d, key).Some?
    ensures TakesKey(d, key, Pressed(d, key).value) <==> Faithful(d, key)
  {
    hide TextEditor.Flatten, TextEditor.Flat.Step, Edits, IsAscii;
    hide TextEditor.Doc.InsertChar, TextEditor.Doc.Newline, TextEditor.Doc.Erase, TextEditor.Doc.MoveRows, TextEditor.Doc.MoveCols;
    TextEditor.FlattenParts(d);
    if EditorKey(key).Some? {
      var k := EditorKey(key).value;
      EncodeLength(d.Line());
      TextEditor.StepStaysInBytes(d, k);
      TextEditor.StepRefinesExactly(d, k);
      FlatEdits(TextEditor.Flatten(d), key);
      var d' := d.Step(k).value;
      if TakesKey(d, key, d') {
        EditsDetermine(TextEditor.Flatten(d), key, TextEditor.Flatten(d'), TextEditor.Flatten(d).Step(k));
      }
    } else {
      StaysEdits(TextEditor.Flatten(d), key);
    }
  }

  lemma StaysEdits(f: Flat, key: Key)
    requires f.Valid() && EditorKey(key).None?
    ensures Edits(f, key, f)
  {
  }

  lemma InputIsPressed(v: View, key: Key, outcome: Outcome)
    requires v.modal.Some? && v.modal.value.Editing? && key != Esc && key != F(5)
    ensures
      var Editing(uid, agent, doc) := v.modal.value;
      EditorInput(v, key, outcome) ==
        if Pressed(doc, key).None? then Panic
        else Done(v.(modal := Some(Editing(uid, agent, Pressed(doc, key).value))), None)
  {
    hide TextEditor.Doc.InsertChar, TextEditor.Doc.Newline, TextEditor.Doc.Erase, TextEditor.Doc.MoveRows, TextEditor.Doc.MoveCols;
    hide Answered, TextEditor.Join;
  }

  /** Every key but the two that close the editor leaves it open on the lines as the key edits them. */
  lemma KeyIsPressed(lower: string -> string, v: View, key: Key, outcome: Outcome)
    requires v.modal.Some? && v.modal.value.Editing? && key != Esc && key != F(5)
    ensures
      var Editing(uid, agent, doc) := v.modal.value;
      HandleKey(lower, v, key, outcome) ==
        if Pressed(doc, key).None? then Panic
        else Done(v.(modal := Some(Editing(uid, agent, Pressed(doc, key).value))), None)
  {
    hide EditorInput, Pressed;
    InputIsPressed(v, key, outcome);
  }

  /** In terms of the text on screen: each of those keys edits it, and only it, as it should. */
  lemma KeyEditsText(lower: string -> string, v: View, key: Key, outcome: Outcome)
    requires v.modal.Some? && v.modal.value.Editing? && key != Esc && key != F(5)
    requires v.modal.value.doc.InSync() && v.modal.value.doc.NewlineFree()
    ensures
      var Editing(uid, agent, doc) := v.modal.value;
      && HandleKey(lower, v, key, outcome).Done? && HandleKey(lower, v, key, outcome).call.None?
      && var w := HandleKey(lower, v, key, outcome).view;
      && w.modal.Some? && w.modal.value.Editing?
      && w == v.(modal := Some(Editing(uid, agent, w.modal.value.doc)))
      && (TakesKey(doc, key, w.modal.value.doc) <==> Faithful(doc, key))
  {
    hide HandleKey, Pressed, TakesKey, Faithful;
    KeyIsPressed(lower, v, key, outcome);
    PressedEdits(v.modal.value.doc, key);
  }

  // ----- a series of keys ------------------------------------------------------------------------

  ghost function Typed(content: string, keys: seq<Key>): Option<OpenDoc> {
    if keys == [] then Some(TextEditor.Open(content)) else
    var before := Typed(content, keys[..|keys| - 1]);
    if before.None? then None else Pressed(before.value, keys[|keys| - 1])
  }

  /** Typing these keys, from the start of the content, gives this text and offset. */
  ghost predicate TypesTo(content: string, keys: seq<Key>, after: Flat) {
    if keys == [] then after == TextEditor.Flat(content, 0) else
    var most, key := keys[..|keys| - 1], keys[|keys| - 1];
    exists before :: TypesTo(content, most, before) && Edits(before, key, after)
  }

  lemma {:induction false} TypesToOne(content: string, keys: seq<Key>, x: Flat, y: Flat)
    requires TypesTo(content, keys, x) && TypesTo(content, keys, y)
    ensures x == y
  {
    hide Edits;
    if keys != [] {
      var most, key := keys[..|keys| - 1], keys[|keys| - 1];
      var b :| TypesTo(content, most, b) && Edits(b, key, x);
      var b' :| TypesTo(content, most, b') && Edits(b', key, y);
      TypesToOne(content, most, b, b');
      EditsDetermine(b, key, x, y);
    }
  }

  /** Where each key is typed, bytes and characters agree as far as it looks. */
  ghost predicate FaithfulThroughout(content: string, keys: seq<Key>) {
    keys != [] ==>
      var most, key := keys[..|keys| - 1], keys[|keys| - 1];
      FaithfulThroughout(content, most) && Typed(content, most).Some? && Faithful(Typed(content, most).value, key)
  }

  /** After each of these keys the editor holds the text they type, with the cursor on its offset. */
  ghost predicate Follows(content: string, keys: seq<Key>) {
    && (keys != [] ==> Follows(content, keys[..|keys| - 1]))
    && Typed(content, keys).Some? && Typed(content, keys).value.InSync()
    && TypesTo(content, keys, TextEditor.Flatten(Typed(content, keys).value))
  }

  predicate NoBreaks(keys: seq<Key>) {
    forall i :: 0 <= i < |keys| ==> keys[i] != Char('\n')
  }

  lemma OpensOnContent(content: string)
    ensures TextEditor.Open(content).InSync() && TextEditor.Open(content).NewlineFree()
    ensures TextEditor.Flatten(TextEditor.Open(content)) == TextEditor.Flat(content, 0)
  {
    TextEditor.JoinSplit(content);
    TextEditor.SplitIsNewlineFree(content);
  }

  lemma PressedKeepsShape(d: Doc, key: Key)
    requires d.Valid() && Pressed(d, key).Some?
    ensures d.NewlineFree() && key != Char('\n') ==> Pressed(d, key).value.NewlineFree()
    ensures d.Ascii() && (key.Char? ==> key.c as int < 0x80) ==> Pressed(d, key).value.Ascii()
  {
    hide TextEditor.Doc.InsertChar, TextEditor.Doc.Newline, TextEditor.Doc.Erase, TextEditor.Doc.MoveRows, TextEditor.Doc.MoveCols;
    hide TextEditor.Doc.NewlineFree, TextEditor.Doc.Ascii;
    if EditorKey(key).Some? { TextEditor.StepKeepsShape(d, EditorKey(key).value); }
  }

  /**
   * Any keys typed into any content: the editor holds what they type exactly as long as each key
   * finds bytes and characters agreeing where it is typed.
   */
  lemma {:induction false} TypingFollowsExactly(content: string, keys: seq<Key>)
    requires NoBreaks(keys)
    ensures Follows(content, keys) <==> FaithfulThroughout(content, keys)
    ensures Follows(content, keys) ==> Typed(content, keys).value.NewlineFree()
  {
    hide Edits, Pressed, Faithful, TextEditor.Flatten, TextEditor.Open, TextEditor.Doc.NewlineFree, TextEditor.Doc.InSync;
    if keys == [] {
      OpensOnContent(content);
    } else {
      var most, key := keys[..|keys| - 1], keys[|keys| - 1];
      TypingFollowsExactly(content, most);
      if Follows(content, most) {
        var d := Typed(content, most).value;
        PressedEdits(d, key);
        PressedKeepsShape(d, key);
        var d' := Pressed(d, key).value;
        if TypesTo(content, keys, TextEditor.Flatten(d')) {
          var before :| TypesTo(content, most, before) && Edits(before, key, TextEditor.Flatten(d'));
          TypesToOne(content, most, before, TextEditor.Flatten(d));
        }
      }
    }
  }

  /** No key is unfaithful on ASCII text, nor are the keys other than Left, Right and End on any. */
  predicate PlainTyping(content: string, keys: seq<Key>) {
    || (IsAscii(content) && forall i :: 0 <= i < |keys| && keys[i].Char? ==> keys[i].c as int < 0x80)
    || forall i :: 0 <= i < |keys| ==> !keys[i].Left? && !keys[i].Right? && !keys[i].End?
  }

  lemma {:induction false} PlainIsFaithful(content: string, keys: seq<Key>)
    requires NoBreaks(keys) && PlainTyping(content, keys)
    ensures FaithfulThroughout(content, keys)
    ensures IsAscii(content) && (forall i :: 0 <= i < |keys| && keys[i].Char? ==> keys[i].c as int < 0x80) ==>
      Typed(content, keys).Some? && Typed(content, keys).value.Ascii()
  {
    hide Pressed, IsAscii, TextEditor.Open;
    if keys == [] {
      if IsAscii(content) { AsciiOpens(content); }
    } else {
      var most, key := keys[..|keys| - 1], keys[|keys| - 1];
      PlainIsFaithful(content, most);
      TypingFollowsExactly(content, most);
      var d := Typed(content, most).value;
      PressedEdits(d, key);
      PressedKeepsShape(d, key);
    }
  }

  lemma AsciiOpens(content: string)
    requires IsAscii(content)
    ensures TextEditor.Open(content).Ascii()
  {
    TextEditor.SplitIsAscii(content);
  }

  /** What a push of the edited lines carries is the text that the keys type. */
  lemma TypedText(content: string, keys: seq<Key>) returns (after: Flat)
    requires NoBreaks(keys) && FaithfulThroughout(content, keys)
    ensures TypesTo(content, keys, after)
    ensures Typed(content, keys).Some? && TextEditor.Join(Typed(content, keys).value.lines) == after.text
  {
    hide TypesTo, Typed, FaithfulThroughout;
    TypingFollowsExactly(content, keys);
    after := TextEditor.Flatten(Typed(content, keys).value);
  }
}
