/**
 * Reading the output of `git tag --list`, as the tag scripts all do:
 * `output.trim().split('\n').filter(tag => tag.length > 0)`.
 */
module TagListing {
  import opened Strings
  import opened Seqs

  predicate NonEmptyLine(line: string) { |line| > 0 }

  /** The lines of the trimmed output, empty lines dropped. */
  function TagLines(output: string): (tags: seq<string>)
    ensures forall i :: 0 <= i < |tags| ==> |tags[i]| > 0 && '\n' !in tags[i]
  {
    var lines := Split(Trim(output), '\n');
    SplitPiecesFree(Trim(output), '\n');
    Filter(lines, NonEmptyLine)
  }

  /** A name git could list: not empty, and without white space (git refuses it in ref names). */
  predicate IsTagName(t: string) { |t| > 0 && NoWhitespace(t) }

  /** Reading the listing of a list of tag names, one per line, gives the list back. */
  lemma {:induction false} TagLinesOfListing(tags: seq<string>)
    requires forall i :: 0 <= i < |tags| ==> IsTagName(tags[i])
    ensures TagLines(Join(tags, '\n') + "\n") == tags
  {
    var text := Join(tags, '\n');
    if tags == [] {
      assert text + "\n" == "\n";
      assert Trim("\n") == "" by { TrimEmptyIff("\n"); }
      assert Split("", '\n') == [""];
    } else {
      JoinedTrimmed(tags);
      forall k | 0 <= k < |tags| ensures '\n' !in tags[k] {
        NoNewline(tags[k]);
      }
      SplitJoin(tags, '\n');
      assert Split(text, '\n') == tags;
      FilterAll(tags, NonEmptyLine);
      assert TagLines(text + "\n") == Filter(Split(text, '\n'), NonEmptyLine);
    }
  }

  /** The trailing newline of a non-empty listing is all that trimming removes. */
  lemma {:induction false} JoinedTrimmed(tags: seq<string>)
    requires |tags| > 0 && forall i :: 0 <= i < |tags| ==> IsTagName(tags[i])
    ensures Trim(Join(tags, '\n') + "\n") == Join(tags, '\n')
  {
    var text := Join(tags, '\n');
    JoinEnds(tags, '\n');
    var first, last := tags[0], tags[|tags| - 1];
    assert IsTagName(first) && IsTagName(last);
    assert text[0] == first[0] && !IsJsWhitespace(first[0]);
    assert text[|text| - 1] == last[|last| - 1] && !IsJsWhitespace(last[|last| - 1]);
    TrimTrailingNewline(text);
  }

  lemma {:induction false} NoNewline(t: string)
    requires NoWhitespace(t)
    ensures '\n' !in t
  {
    forall i | 0 <= i < |t| ensures t[i] != '\n' {
      assert !IsJsWhitespace(t[i]);
    }
  }

  /** A joined list starts with its first piece's first character and ends with its last piece's last. */
  lemma {:induction false} JoinEnds(parts: seq<string>, sep: char)
    requires |parts| >= 1 && forall i :: 0 <= i < |parts| ==> |parts[i]| > 0
    ensures var j := Join(parts, sep); |j| > 0 && j[0] == parts[0][0]
    ensures var j := Join(parts, sep); var last := parts[|parts| - 1]; j[|j| - 1] == last[|last| - 1]
    decreases |parts|
  {
    if |parts| > 1 {
      JoinEnds(parts[1..], sep);
    }
  }

  /** Trimming a text followed by a newline removes the newline when the text's ends are not white space. */
  lemma {:induction false} TrimTrailingNewline(text: string)
    requires |text| > 0 && !IsJsWhitespace(text[0]) && !IsJsWhitespace(text[|text| - 1])
    ensures Trim(text + "\n") == text
  {
    var s := text + "\n";
    assert TrimStart(s) == s;
    assert s[..|s| - 1] == text;
    assert TrimEnd(s) == TrimEnd(text);
    TrimNoop(text);
  }
}
