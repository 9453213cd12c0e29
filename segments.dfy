/**
 * Assembly of the recognized text from the segment texts returned by the
 * transcriber: every segment text is stripped, blank ones are dropped and the
 * rest are joined with a single space.
 */
module Segments {
  import opened Text

  /** `[s.strip() for s in texts if s.strip()]`: the stripped non-blank
      segment texts, in order. */
  function Kept(texts: seq<string>): (parts: seq<string>)
    ensures |parts| <= |texts|
    ensures forall k :: 0 <= k < |parts| ==> parts[k] != [] && Trimmed(parts[k])
    ensures parts == [] <==> forall i :: 0 <= i < |texts| ==> Blank(texts[i])
  {
    if texts == [] then
      []
    else
      var rest := Kept(texts[1..]);
      assert forall i :: 1 <= i < |texts| ==> texts[i] == texts[1..][i - 1];
      if Blank(texts[0]) then rest else [Strip(texts[0])] + rest
  }

  /** `" ".join(parts)`. */
  function Join(parts: seq<string>): (r: string)
  {
    if parts == [] then ""
    else if |parts| == 1 then parts[0]
    else parts[0] + " " + Join(parts[1..])
  }

  /** Joining non-empty parts gives the empty string only for no parts, and
      joining parts without whitespace at their ends gives a string without
      whitespace at its ends; the join starts with the first part. */
  lemma {:induction false} JoinShape(parts: seq<string>)
    requires forall k :: 0 <= k < |parts| ==> parts[k] != [] && Trimmed(parts[k])
    ensures Join(parts) == [] <==> parts == []
    ensures Trimmed(Join(parts))
    ensures parts != [] ==> Join(parts)[0] == parts[0][0]
    ensures parts != [] ==> |parts[0]| <= |Join(parts)| && Join(parts)[..|parts[0]|] == parts[0]
  {
    if |parts| > 1 {
      JoinShape(parts[1..]);
      var r := Join(parts);
      var tail := Join(parts[1..]);
      assert r[|r| - 1] == tail[|tail| - 1];
    }
  }

  /** Adding a part at the back adds one space and that part. */
  lemma {:induction false} JoinSnoc(parts: seq<string>, p: string)
    requires parts != []
    ensures Join(parts + [p]) == Join(parts) + " " + p
  {
    if |parts| > 1 {
      assert (parts + [p])[1..] == parts[1..] + [p];
      JoinSnoc(parts[1..], p);
    } else {
      assert (parts + [p])[1..] == [p];
    }
  }

  /** The text the transcription cycle works on. It is empty exactly when
      every segment text is blank, and otherwise it is itself not blank and
      has no whitespace at either end. */
  function RecognizedText(texts: seq<string>): (r: string)
    ensures r == [] <==> forall i :: 0 <= i < |texts| ==> Blank(texts[i])
    ensures Trimmed(r)
    ensures r != [] ==> !Blank(r)
  {
    var parts := Kept(texts);
    JoinShape(parts);
    var r := Join(parts);
    StripTrimmed(r);
    r
  }

  /** Read from the back: one more segment adds its stripped text when it is
      not blank, and nothing otherwise. */
  lemma {:induction false} KeptSnoc(texts: seq<string>, t: string)
    ensures Kept(texts + [t]) == Kept(texts) + (if Blank(t) then [] else [Strip(t)])
    decreases |texts|
  {
    if texts == [] {
      assert [] + [t] == [t];
    } else {
      assert (texts + [t])[1..] == texts[1..] + [t];
      KeptSnoc(texts[1..], t);
    }
  }

  /** The recognized text grows one segment at a time: a blank segment adds
      nothing, the first non-blank one is its stripped text, and every later
      one adds a single space and its stripped text. */
  lemma RecognizedTextSnoc(texts: seq<string>, t: string)
    ensures RecognizedText(texts + [t]) ==
              if Blank(t) then RecognizedText(texts)
              else if RecognizedText(texts) == [] then Strip(t)
              else RecognizedText(texts) + " " + Strip(t)
  {
    KeptSnoc(texts, t);
    if Blank(t) {
      assert Kept(texts + [t]) == Kept(texts);
    } else if Kept(texts) == [] {
      assert Kept(texts + [t]) == [Strip(t)];
    } else {
      JoinSnoc(Kept(texts), Strip(t));
    }
  }
}
