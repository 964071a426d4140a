/** The OVERLAY file the `correct` action writes for the user to edit: a
    comment header, then one `keep` line per original shot. */
module Overlay {
  import opened Wrappers
  import opened PyText
  import opened Shots

  /** The absolute value of a timestamp. */
  function Magnitude(t: Pts): nat {
    if t < 0 then -t else t
  }

  /** The part of `f'{pts:.6f}'` before the point: an optional minus sign
      and the whole seconds of `|t|` microseconds. */
  function WholeSeconds(t: Pts): string {
    (if t < 0 then "-" else "") + NatToString(Magnitude(t) / 1000000)
  }

  /** The six digits of `f'{pts:.6f}'` after the point. */
  function Micros(t: Pts): string {
    ZeroPad(Magnitude(t) % 1000000, 6)
  }

  /** `f'{pts:.6f}'` for a timestamp of exactly `t` microseconds. */
  function FormatPts(t: Pts): (r: string)
    ensures IsToken(r)
  {
    var w, f := WholeSeconds(t), Micros(t);
    assert forall i :: 0 <= i < |w| ==> w[i] == '-' || IsDigit(w[i]);
    assert |f| >= 6;
    assert forall i :: 0 <= i < |f| ==> IsDigit(f[i]);
    var r := w + "." + f;
    assert forall i :: 0 <= i < |r| ==> r[i] == '-' || r[i] == '.' || IsDigit(r[i]);
    r
  }

  /** The whole seconds field: a minus sign exactly for a negative
      timestamp, then the digits of the whole seconds, and no point. */
  lemma WholeSecondsFields(t: Pts)
    ensures var w := WholeSeconds(t);
      |w| > 0 && (t < 0 <==> w[0] == '-') && '.' !in w &&
      (if t < 0 then w[1..] else w) == NatToString(Magnitude(t) / 1000000)
  {
    var digits := NatToString(Magnitude(t) / 1000000);
    DigitsExclude(digits, '.');
    DigitsExclude(digits, '-');
    if t < 0 {
      assert WholeSeconds(t) == "-" + digits;
      assert ("-" + digits)[1..] == digits;
    } else {
      assert WholeSeconds(t) == digits;
    }
  }

  /** The microseconds field: exactly six digits, and no point. */
  lemma MicrosFields(t: Pts)
    ensures |Micros(t)| == 6 && IsDigits(Micros(t)) && '.' !in Micros(t)
  {
    assert Pow10(6) == 1000000;
    NatToStringLength(Magnitude(t) % 1000000, 6);
    DigitsExclude(Micros(t), '.');
  }

  /** The printed timestamp reads back as the value it was printed from:
      splitting at the point gives the signed whole seconds and exactly six
      digits of microseconds. */
  lemma FormatPtsFields(t: Pts)
    ensures var parts := SplitOn(FormatPts(t), '.');
      |parts| == 2 && |parts[1]| == 6 && IsDigits(parts[1]) &&
      var whole := parts[0];
      |whole| > 0 && (t < 0 <==> whole[0] == '-') &&
      var digits := if t < 0 then whole[1..] else whole;
      IsDigits(digits) &&
      DigitsValue(digits) * 1000000 + DigitsValue(parts[1]) == (if t < 0 then -t else t)
  {
    WholeSecondsFields(t);
    MicrosFields(t);
    SplitOnPair(WholeSeconds(t), '.', Micros(t));
    DigitsSplit(Magnitude(t));
  }

  lemma DigitsSplit(a: nat)
    ensures DigitsValue(NatToString(a / 1000000)) * 1000000 + DigitsValue(ZeroPad(a % 1000000, 6)) == a
  {
  }

  /** One overlay line: `keep <shot_id> <start> -> <end>`. */
  function OverlayLine(shot: Shot): string {
    "keep " + shot.shotId + " " + FormatPts(shot.startPts) + " -> " + FormatPts(shot.endPts)
  }

  lemma UnwordsFive(ws: seq<string>)
    requires |ws| == 5
    ensures Unwords(ws) == ws[0] + " " + ws[1] + " " + ws[2] + " " + ws[3] + " " + ws[4]
  {
    assert Unwords(ws[4..]) == ws[4];
    assert Unwords(ws[3..]) == ws[3] + " " + ws[4] by { assert ws[3..][1..] == ws[4..]; }
    assert Unwords(ws[2..]) == ws[2] + " " + (ws[3] + " " + ws[4]) by { assert ws[2..][1..] == ws[3..]; }
    assert Unwords(ws[1..]) == ws[1] + " " + (ws[2] + " " + (ws[3] + " " + ws[4])) by { assert ws[1..][1..] == ws[2..]; }
  }

  lemma LiteralTokens()
    ensures IsToken("keep") && IsToken("->")
  {
  }

  /** The shape of an overlay line: five fields joined by single spaces. */
  lemma KeepLineWords(id: string, a: string, b: string)
    ensures ("keep " + id + " " + a + " -> " + b)[0] == 'k'
    ensures "keep " + id + " " + a + " -> " + b == Unwords(["keep", id, a, "->", b])
  {
    UnwordsFive(["keep", id, a, "->", b]);
    assert "keep " == "keep" + " " && " -> " == " " + "->" + " ";
    assert "keep " + id + " " + a + " -> " + b == "keep" + " " + id + " " + a + " " + "->" + " " + b;
  }

  /** An overlay line is its five fields joined by single spaces. */
  lemma OverlayLineWords(shot: Shot)
    ensures OverlayLine(shot)[0] == 'k'
    ensures OverlayLine(shot) ==
      Unwords(["keep", shot.shotId, FormatPts(shot.startPts), "->", FormatPts(shot.endPts)])
  {
    KeepLineWords(shot.shotId, FormatPts(shot.startPts), FormatPts(shot.endPts));
  }

  /** An overlay line for a shot whose id has no whitespace splits into the
      five fields the reconciliation loop unpacks, with action `keep`. */
  lemma OverlayLineFields(shot: Shot)
    requires IsToken(shot.shotId)
    ensures OverlayLine(shot)[0] == 'k'
    ensures Split(OverlayLine(shot)) == ["keep", shot.shotId, FormatPts(shot.startPts), "->", FormatPts(shot.endPts)]
  {
    var ws := ["keep", shot.shotId, FormatPts(shot.startPts), "->", FormatPts(shot.endPts)];
    OverlayLineWords(shot);
    LiteralTokens();
    SplitUnwords(ws);
  }

  /** The fixed comment texts of the header, after its title line. */
  const UsageText := "Use this file to edit the shot change detection data."
  const FormatTitle := "Format:"
  const FormatText := "[action] [shot_id] [in_timestamp] -> [out_timestamp]"
  const KeepText := "keep      - do not modify, keep this shot as-is"
  const EditText := "edit      - edit this shot's ID or in/out timestamp"
  const AddText := "add       - add a new shot, set your own ID and in/out timestamp"
  const MergeUpText := "mergeup   - delete this shot, set the previous shot's out point to this shot's out point"
  const MergeDownText := "mergedown - delete this shot, set the next shot's in point to this shot's in point"
  const DeleteText := "delete    - delete this shot, neighboring shots won't be modified"

  /** The text of each header line: a comment, or `None` for a blank line. */
  function HeaderTexts(uri: string, modelName: string): seq<Option<string>> {
    [ Some("This is an OVERLAY file for '" + uri + "' (" + modelName + ")"),
      Some(UsageText), None,
      Some(FormatTitle), Some(FormatText), None,
      Some(KeepText), Some(EditText), Some(AddText),
      Some(MergeUpText), Some(MergeDownText), Some(DeleteText), None ]
  }

  /** One header line: `# ` and the comment text, or an empty line. */
  function HeaderLine(text: Option<string>): string {
    match text
    case None => ""
    case Some(t) => "# " + t
  }

  /** The comment block at the head of the file, line by line; `uri` and
      `modelName` are assumed to hold no line break. */
  function OverlayHeader(uri: string, modelName: string): seq<string> {
    var texts := HeaderTexts(uri, modelName);
    seq(|texts|, k requires 0 <= k < |texts| => HeaderLine(texts[k]))
  }

  /** The `keep` lines, one per shot, in order. */
  function KeepLines(shots: seq<Shot>): (lines: seq<string>)
    ensures |lines| == |shots|
    ensures forall k :: 0 <= k < |shots| ==> lines[k] == OverlayLine(shots[k])
  {
    seq(|shots|, k requires 0 <= k < |shots| => OverlayLine(shots[k]))
  }

  /** Every `keep` line of a shot whose id has no whitespace starts with `k`
      and splits into the five fields the loop unpacks. */
  lemma KeepLinesFields(shots: seq<Shot>)
    ensures |KeepLines(shots)| == |shots|
    ensures forall k :: 0 <= k < |shots| && IsToken(shots[k].shotId) ==>
      KeepLines(shots)[k][0] == 'k' &&
      Split(KeepLines(shots)[k]) ==
        ["keep", shots[k].shotId, FormatPts(shots[k].startPts), "->", FormatPts(shots[k].endPts)]
  {
    forall k | 0 <= k < |shots| && IsToken(shots[k].shotId)
      ensures KeepLines(shots)[k][0] == 'k'
      ensures Split(KeepLines(shots)[k]) ==
        ["keep", shots[k].shotId, FormatPts(shots[k].startPts), "->", FormatPts(shots[k].endPts)]
    {
      OverlayLineFields(shots[k]);
    }
  }

  /** The whole overlay file as the lines `splitlines()` reads back. */
  function OverlayFile(uri: string, modelName: string, shots: seq<Shot>): seq<string> {
    OverlayHeader(uri, modelName) + KeepLines(shots)
  }
}
