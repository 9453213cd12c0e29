/**
 * The caption file: its content is the latest caption text, with every line
 * feed turned into a space, stripped, and ended by one line feed. Every write
 * replaces the whole content.
 */
module Captions {
  import opened Text

  /** `s.replace("\n", " ")`. */
  function ReplaceNewlines(s: string): (r: string)
    ensures |r| == |s|
    ensures forall i :: 0 <= i < |s| ==> r[i] == (if s[i] == '\n' then ' ' else s[i])
  {
    if s == [] then [] else [if s[0] == '\n' then ' ' else s[0]] + ReplaceNewlines(s[1..])
  }

  /** A string without line feeds is left as it is. */
  lemma NoNewlinesUnchanged(s: string)
    requires '\n' !in s
    ensures ReplaceNewlines(s) == s
  {
  }

  /** What `write_caption(text)` puts in the file. */
  function CleanCaption(text: string): (r: string)
    ensures |r| >= 1 && r[|r| - 1] == '\n'
    ensures forall i :: 0 <= i < |r| - 1 ==> r[i] != '\n'
    ensures Trimmed(Body(r))
    ensures r == "\n" <==> Blank(text)
  {
    var replaced := ReplaceNewlines(text);
    var body := Strip(replaced);
    assert '\n' !in body by {
      if '\n' in body {
        StripKeepsCharacters(replaced, '\n');
      }
    }
    assert AllSpace(replaced) <==> AllSpace(text);
    var r := body + "\n";
    assert Body(r) == body;
    r
  }

  /** The caption text of a file content, without its final line feed. */
  function Body(content: string): string {
    if content == [] then [] else content[..|content| - 1]
  }

  /** Reading back: a caption text that is already clean (no line feed, no
      whitespace at its ends) is written verbatim, followed by a line feed. */
  lemma {:induction false} CleanCaptionVerbatim(text: string)
    requires '\n' !in text && Trimmed(text)
    ensures CleanCaption(text) == text + "\n"
    ensures Body(CleanCaption(text)) == text
  {
    NoNewlinesUnchanged(text);
    StripTrimmed(text);
    assert Strip(ReplaceNewlines(text)) == text;
    assert CleanCaption(text) == text + "\n";
    assert Body(text + "\n") == text;
  }

  /** Writing back what a caption file holds leaves it unchanged. */
  lemma {:induction false} CleanCaptionIdempotent(text: string)
    ensures CleanCaption(Body(CleanCaption(text))) == CleanCaption(text)
  {
    var r := CleanCaption(text);
    var b := Body(r);
    assert r == b + "\n";
    assert '\n' !in b by {
      forall i | 0 <= i < |b| ensures b[i] != '\n' {
        assert b[i] == r[i];
      }
    }
    CleanCaptionVerbatim(b);
  }

  /** The single-slot caption sink. */
  class CaptionSink {
    var content: string

    /** The sink over a file that already holds `previous`. */
    constructor (previous: string)
      ensures content == previous
    {
      content := previous;
    }

    /** `write_caption(text)`: the whole content is replaced. */
    method Write(text: string)
      modifies this
      ensures content == CleanCaption(text)
    {
      content := CleanCaption(text);
    }
  }
}
