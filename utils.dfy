/**
 * `json_decode_error_fragment`: the excerpt shown for a JSON decoding error.
 * Up to 20 characters of the document on either side of the error position
 * are shown, and right after the line holding the error a hint line is
 * inserted: a caret, padded with spaces so that it stands under the offending
 * character, followed by the error message.
 */
module Fragment {
  import Text

  /**
   * The fields of a `json.JSONDecodeError` that the fragment reads: the
   * message, the document, the error's index in it and its 1-based column.
   */
  datatype DecodeError = DecodeError(msg: string, doc: string, pos: int, colno: int)

  /** The decoder only reports positions inside the document or at its end. */
  predicate InDoc(e: DecodeError) {
    0 <= e.pos <= |e.doc|
  }

  /** The column the decoder computes: the distance from the last newline before `pos` (or from index -1). */
  predicate FromDecoder(e: DecodeError) {
    InDoc(e) && e.colno == e.pos - Text.RFind(e.doc, '\n', 0, e.pos)
  }

  /** How many characters of context are shown on either side of the error. */
  const Context := 20

  // ---------------------------------------------------------------- the window

  /** `max(0, pos - 20)`. */
  function WindowStart(pos: int): (r: int)
    ensures r >= 0 && r >= pos - Context
    ensures r == 0 || r == pos - Context
  {
    if pos - Context > 0 then pos - Context else 0
  }

  /** `min(len(doc), pos + 20)`. */
  function WindowEnd(doc: string, pos: int): (r: int)
    ensures r <= |doc| && r <= pos + Context
    ensures r == |doc| || r == pos + Context
  {
    if pos + Context < |doc| then pos + Context else |doc|
  }

  /** The window lies inside the document and around the error, at most 20 characters each way. */
  lemma WindowBounds(e: DecodeError)
    requires InDoc(e)
    ensures var start := WindowStart(e.pos);
      var end := WindowEnd(e.doc, e.pos);
      && 0 <= start <= e.pos <= end <= |e.doc|
      && e.pos - start == (if e.pos < Context then e.pos else Context)
      && end - e.pos == (if |e.doc| - e.pos < Context then |e.doc| - e.pos else Context)
  {
  }

  /** `msg[:-2] if msg.endswith(" at") else msg`. */
  function TrimmedMsg(msg: string): (r: string)
    ensures r <= msg
    ensures |r| == |msg| - (if Text.EndsWith(msg, " at") then 2 else 0)
  {
    if Text.EndsWith(msg, " at") then msg[..|msg| - 2] else msg
  }

  /** Where the hint line goes: at the first newline in `doc[pos:end]`, or at the end of the window. */
  function Cut(e: DecodeError): (c: int)
    requires InDoc(e)
    ensures e.pos <= c <= WindowEnd(e.doc, e.pos)
    ensures forall i :: e.pos <= i < c ==> e.doc[i] != '\n'
    ensures c < WindowEnd(e.doc, e.pos) ==> e.doc[c] == '\n'
  {
    var nl := Text.Find(e.doc, '\n', e.pos, WindowEnd(e.doc, e.pos));
    if nl != -1 then nl else WindowEnd(e.doc, e.pos)
  }

  /** Where the shown line holding the error starts: after the last newline in `doc[start:pos]`, or at the window start. */
  function LineStart(e: DecodeError): (ls: int)
    requires InDoc(e)
    ensures WindowStart(e.pos) <= ls <= e.pos
    ensures forall i :: ls <= i < e.pos ==> e.doc[i] != '\n'
    ensures ls > WindowStart(e.pos) ==> e.doc[ls - 1] == '\n'
  {
    var prev := Text.RFind(e.doc, '\n', WindowStart(e.pos), e.pos);
    if prev != -1 then prev + 1 else WindowStart(e.pos)
  }

  // ---------------------------------------------------------------- the pointer

  /** `"^".rjust(width)`: a caret after `width - 1` spaces, or the bare caret when `width <= 1`. */
  function Pointer(width: int): (r: string)
    ensures |r| == if width > 1 then width else 1
    ensures r[|r| - 1] == '^'
    ensures forall i :: 0 <= i < |r| - 1 ==> r[i] == ' '
  {
    Text.RJust("^", width)
  }

  /**
   * The pointer width as the source computes it: `colno` when a newline
   * occurs in `doc[start:pos]`, and `colno - start` otherwise.
   */
  function PointerWidthAsWritten(e: DecodeError): int
    requires InDoc(e)
  {
    var start := WindowStart(e.pos);
    if Text.RFind(e.doc, '\n', start, e.pos) != -1 then e.colno else e.colno - start
  }

  /**
   * The pointer width that puts the caret under `doc[pos]`: `pos - prev_newline`
   * when a newline occurs in `doc[start:pos]`, and `pos - start + 1` otherwise.
   */
  function PointerWidth(e: DecodeError): (w: int)
    requires InDoc(e)
    ensures w == e.pos - LineStart(e) + 1
    ensures w >= 1
  {
    var start := WindowStart(e.pos);
    var prev := Text.RFind(e.doc, '\n', start, e.pos);
    if prev != -1 then e.pos - prev else e.pos - start + 1
  }

  // ---------------------------------------------------------------- the fragment

  /** `"".join(fragment)` for a given pointer width, in both branches of the source. */
  function Assemble(e: DecodeError, width: int): (r: string)
    requires InDoc(e)
    ensures |r| == (WindowEnd(e.doc, e.pos) - WindowStart(e.pos)) + 1 + |Pointer(width)| + |TrimmedMsg(e.msg)|
  {
    var start := WindowStart(e.pos);
    var end := WindowEnd(e.doc, e.pos);
    var msg := TrimmedMsg(e.msg);
    var pointer := Pointer(width);
    var nl := Text.Find(e.doc, '\n', e.pos, end);
    if nl != -1 then e.doc[start..nl] + "\n" + pointer + msg + e.doc[nl..end]
    else e.doc[start..end] + "\n" + pointer + msg
  }

  /** `json_decode_error_fragment` with the corrected pointer width. */
  function ErrorFragment(e: DecodeError): string
    requires InDoc(e)
  {
    Assemble(e, PointerWidth(e))
  }

  /** `json_decode_error_fragment` as written. */
  function ErrorFragmentAsWritten(e: DecodeError): string
    requires InDoc(e)
  {
    Assemble(e, PointerWidthAsWritten(e))
  }

  /**
   * The fragment is the window `doc[start:end]` with the hint line
   * `"\n" + pointer + msg` inserted at the cut; so taking the hint line out
   * gives back the window.
   */
  lemma FragmentInsertsHintLine(e: DecodeError, width: int)
    requires InDoc(e)
    ensures var r := Assemble(e, width);
      var start := WindowStart(e.pos);
      var end := WindowEnd(e.doc, e.pos);
      var at := Cut(e) - start;
      var hint := "\n" + Pointer(width) + TrimmedMsg(e.msg);
      && r[..at] == e.doc[start..Cut(e)]
      && r[at..at + |hint|] == hint
      && r[at + |hint|..] == e.doc[Cut(e)..end]
      && r[..at] + r[at + |hint|..] == e.doc[start..end]
  {
    var r := Assemble(e, width);
    var start := WindowStart(e.pos);
    var end := WindowEnd(e.doc, e.pos);
    var c := Cut(e);
    var hint := "\n" + Pointer(width) + TrimmedMsg(e.msg);
    assert r == e.doc[start..c] + hint + e.doc[c..end];
    assert e.doc[start..c] + e.doc[c..end] == e.doc[start..end];
  }

  /**
   * With the corrected width the caret stands under the error: the hint line
   * holds `pos - ls` spaces and then the caret, where `ls` is where the shown
   * line holding the error starts; that shown line has no newline up to the
   * cut, and when the error is not at the cut, the character at the caret's
   * column of that line is `doc[pos]`.
   */
  lemma CaretUnderError(e: DecodeError)
    requires InDoc(e)
    ensures var r := ErrorFragment(e);
      var start := WindowStart(e.pos);
      var ls := LineStart(e) - start;
      var at := Cut(e) - start;
      var col := e.pos - LineStart(e);
      && 0 <= ls <= at < at + 1 + col < |r|
      && (ls == 0 || r[ls - 1] == '\n')
      && (forall i :: ls <= i < at ==> r[i] != '\n')
      && r[at] == '\n'
      && (forall i :: at + 1 <= i < at + 1 + col ==> r[i] == ' ')
      && r[at + 1 + col] == '^'
      && (e.pos < Cut(e) ==> r[ls + col] == e.doc[e.pos])
  {
    CaretLine(e);
    CaretHint(e);
  }

  /** The shown line holding the error, in the fragment with the corrected width. */
  lemma CaretLine(e: DecodeError)
    requires InDoc(e)
    ensures var r := ErrorFragment(e);
      var start := WindowStart(e.pos);
      var ls := LineStart(e) - start;
      var at := Cut(e) - start;
      var col := e.pos - LineStart(e);
      && 0 <= ls <= at <= |r|
      && (ls == 0 || r[ls - 1] == '\n')
      && (forall i :: ls <= i < at ==> r[i] != '\n')
      && (e.pos < Cut(e) ==> r[ls + col] == e.doc[e.pos])
  {
    var start := WindowStart(e.pos);
    WindowAt(e, PointerWidth(e));
    assert (LineStart(e) - start) + (e.pos - LineStart(e)) == e.pos - start;
  }

  /** The hint line of the fragment with the corrected width: `pos - ls` spaces, then the caret. */
  lemma CaretHint(e: DecodeError)
    requires InDoc(e)
    ensures var r := ErrorFragment(e);
      var at := Cut(e) - WindowStart(e.pos);
      var col := e.pos - LineStart(e);
      && 0 <= at < at + 1 + col < |r|
      && r[at] == '\n'
      && (forall i :: at + 1 <= i < at + 1 + col ==> r[i] == ' ')
      && r[at + 1 + col] == '^'
  {
    HintAt(e, PointerWidth(e));
  }

  /** Before the cut, the fragment is the document from the window start on. */
  lemma WindowAt(e: DecodeError, width: int)
    requires InDoc(e)
    ensures var r := Assemble(e, width);
      var start := WindowStart(e.pos);
      && Cut(e) - start <= |r|
      && forall i :: 0 <= i < Cut(e) - start ==> r[i] == e.doc[start + i]
  {
    var r := Assemble(e, width);
    var start := WindowStart(e.pos);
    var at := Cut(e) - start;
    FragmentInsertsHintLine(e, width);
    SliceAt(r, 0, at, e.doc[start..Cut(e)]);
  }

  /** At the cut, the fragment holds the hint line. */
  lemma HintAt(e: DecodeError, width: int)
    requires InDoc(e)
    ensures var r := Assemble(e, width);
      var at := Cut(e) - WindowStart(e.pos);
      var hint := "\n" + Pointer(width) + TrimmedMsg(e.msg);
      && 0 <= at && at + |hint| <= |r|
      && forall i :: at <= i < at + |hint| ==> r[i] == hint[i - at]
  {
    var r := Assemble(e, width);
    var at := Cut(e) - WindowStart(e.pos);
    var hint := "\n" + Pointer(width) + TrimmedMsg(e.msg);
    FragmentInsertsHintLine(e, width);
    SliceAt(r, at, at + |hint|, hint);
  }

  /** A slice of `r` that equals `s` gives `r`'s characters in that range one by one. */
  lemma SliceAt(r: string, lo: int, hi: int, s: string)
    requires 0 <= lo <= hi <= |r| && r[lo..hi] == s
    ensures forall i :: lo <= i < hi ==> r[i] == s[i - lo]
  {
    forall i | lo <= i < hi ensures r[i] == s[i - lo] {
      assert r[i] == r[lo..hi][i - lo];
    }
  }

  // ---------------------------------------------------------------- the finding

  /** The corrected width agrees with the source's first branch: `colno` when a newline occurs in `doc[start:pos]`. */
  lemma WidthWithNewlineIsColno(e: DecodeError)
    requires FromDecoder(e)
    requires Text.RFind(e.doc, '\n', WindowStart(e.pos), e.pos) != -1
    ensures PointerWidthAsWritten(e) == PointerWidth(e) == e.colno
  {
    Text.RFindSplit(e.doc, '\n', 0, WindowStart(e.pos), e.pos);
  }

  /**
   * As written, the width falls short by `q + 1`, where `q` is the last
   * newline before the window, whenever `doc[start:pos]` has no newline: it
   * is right exactly when `doc[:pos]` has no newline at all.
   */
  lemma AsWrittenWidthOffset(e: DecodeError)
    requires FromDecoder(e)
    requires Text.RFind(e.doc, '\n', WindowStart(e.pos), e.pos) == -1
    ensures PointerWidthAsWritten(e) == PointerWidth(e) - (Text.RFind(e.doc, '\n', 0, WindowStart(e.pos)) + 1)
    ensures PointerWidthAsWritten(e) == PointerWidth(e) <==> Text.RFind(e.doc, '\n', 0, e.pos) == -1
  {
    Text.RFindSplit(e.doc, '\n', 0, WindowStart(e.pos), e.pos);
  }

  /** `"\n[" + "1," * 12 + "x]"`: a list whose thirteenth element is not a value. */
  function ListDoc(): (d: string)
    ensures |d| == 28 && d[0] == '\n' && d[1] == '[' && d[26] == 'x' && d[27] == ']'
    ensures forall i :: 2 <= i < 26 ==> d[i] == if i % 2 == 0 then '1' else ','
  {
    "\n[" + seq(24, i => if i % 2 == 0 then '1' else ',') + "x]"
  }

  /**
   * The decoder rejects `ListDoc()` at the `x`, index 26, with column 26: the
   * window starts at 6, after the only newline, so the caret belongs 20
   * columns in, but as written it is padded to width `colno - start = 20` and
   * lands 19 columns in, one to the left of the `x`.
   */
  lemma AsWrittenMisplacesCaret()
    ensures var e := DecodeError("Expecting value", ListDoc(), 26, 26);
      && FromDecoder(e)
      && WindowStart(e.pos) == 6 && LineStart(e) == 6
      && |Pointer(PointerWidthAsWritten(e))| - 1 == 19
      && e.pos - LineStart(e) == 20
      && ErrorFragmentAsWritten(e) != ErrorFragment(e)
  {
    var e := DecodeError("Expecting value", ListDoc(), 26, 26);
    var d := ListDoc();
    assert Text.RFind(d, '\n', 0, 26) == 0;
    assert Text.RFind(d, '\n', 6, 26) == -1;
    assert |ErrorFragmentAsWritten(e)| != |ErrorFragment(e)|;
  }
}
