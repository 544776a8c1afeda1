/**
 * The text the "copy" button puts on the clipboard: the landlord-message section of the
 * report, found by a case-insensitive regular expression, with its header and the
 * "(Copy & Paste)" note removed and surrounding white space trimmed.
 */
module MessageExtract {
  import opened Wrappers
  import opened Text

  /** The section header the regular expression looks for (case-insensitively). */
  const Header: string := "## 💬 MENSAGEM PARA O DONO"

  /** The note removed from the copied text (case-insensitively). */
  const CopyPasteNote: string := "(Copy & Paste)"

  /** The lookahead that ends a section: the next heading mark. */
  const HeadingMark: string := "##"

  /**
   * The lazy `[\s\S]*?(?=##|$)`: from `from`, the first index at which "##" starts, or the
   * end of the input.
   */
  function SectionEnd(s: string, from: nat): (e: nat)
    requires from <= |s|
    decreases |s| - from
    ensures from <= e <= |s|
    ensures e == |s| || OccursAt(s, e, HeadingMark)
    ensures forall k: nat :: from <= k < e ==> !OccursAt(s, k, HeadingMark)
  {
    if from == |s| || OccursAt(s, from, HeadingMark) then from else SectionEnd(s, from + 1)
  }

  /**
   * The text a pattern matched at `i` followed by the lazy `[\s\S]*?(?=##|$)` covers:
   * the pattern's own length, then up to the first "##" that starts after the pattern
   * (even one that runs past the section), or the end of `s`.
   */
  ghost predicate IsLazySection(s: string, p: string, i: nat, sec: string) {
    && |p| <= |sec|
    && i + |sec| <= |s| && s[i..i + |sec|] == sec
    && (forall k: nat :: |p| <= k ==> !OccursAt(sec, k, HeadingMark))
    && (forall k: nat :: i + |p| <= k < i + |sec| ==> !OccursAt(s, k, HeadingMark))
    && (i + |sec| == |s| || OccursAt(s, i + |sec|, HeadingMark))
  }

  /** The lazy match from a given start is unique: no shorter or longer section qualifies. */
  lemma LazySectionIsUnique(s: string, p: string, i: nat, a: string, b: string)
    requires IsLazySection(s, p, i, a) && IsLazySection(s, p, i, b)
    ensures a == b
  {
    assert |a| == |b|;
    assert a == s[i..i + |a|] && b == s[i..i + |b|];
  }

  function SectionAt(s: string, i: nat, p: string): (sec: string)
    requires i + |p| <= |s|
    ensures IsLazySection(s, p, i, sec)
  {
    var e := SectionEnd(s, i + |p|);
    var sec := s[i..e];
    forall k: nat | |p| <= k ensures !OccursAt(sec, k, HeadingMark) {
      if k + |HeadingMark| <= |sec| {
        assert !OccursAt(s, i + k, HeadingMark);
        assert sec[k] == s[i + k] && sec[k + 1] == s[i + k + 1];
        assert sec[k..k + 2] == [sec[k], sec[k + 1]];
        assert s[i + k..i + k + 2] == [s[i + k], s[i + k + 1]];
      }
    }
    sec
  }

  /** A slice that starts at a case-insensitive occurrence keeps it at its start. */
  lemma OccurrenceAtSliceStart(s: string, p: string, i: nat, sec: string)
    requires OccursAtIgnoringCase(s, i, p)
    requires |p| <= |sec| && i + |sec| <= |s| && s[i..i + |sec|] == sec
    ensures OccursAtIgnoringCase(sec, 0, p)
  {
    assert forall k :: 0 <= k < |p| ==> sec[k] == s[i + k];
  }

  /**
   * `report.match(/## 💬 MENSAGEM PARA O DONO[\s\S]*?(?=##|$)/i)`: the matched text, if any.
   * It starts at the leftmost case-insensitive occurrence of the header and runs up to the
   * next "##" after the header, or to the end of the report.
   */
  function MessageSection(report: string): (r: Option<string>)
    ensures r.None? <==> forall i: nat :: !OccursAtIgnoringCase(report, i, Header)
    ensures r.Some? ==>
      var i := IndexOfIgnoringCase(report, Header).value;
      && (forall k: nat :: k < i ==> !OccursAtIgnoringCase(report, k, Header))
      && OccursAtIgnoringCase(report, i, Header)
      && IsLazySection(report, Header, i, r.value)
  {
    match IndexOfIgnoringCase(report, Header)
    case None => None
    case Some(i) => Some(SectionAt(report, i, Header))
  }

  /** The copied text, trimmed at both ends. */
  function ExtractMessage(report: string): (r: string)
    ensures r == [] || (!IsSpace(r[0]) && !IsSpace(r[|r| - 1]))
    ensures MessageSection(report).None? ==> r == Trim(RemoveFirstIgnoringCase(report, CopyPasteNote))
    ensures MessageSection(report).Some? ==>
      r == Trim(RemoveFirstIgnoringCase(Trim(RemoveFirst(MessageSection(report).value, Header)), CopyPasteNote))
  {
    var base := match MessageSection(report)
      case Some(sec) => Trim(RemoveFirst(sec, Header))
      case None => report;
    Trim(RemoveFirstIgnoringCase(base, CopyPasteNote))
  }

  /** Only the header's first two code points are '#'. */
  lemma HeaderHashes()
    ensures |Header| >= 3 && Header[0] == '#' && Header[1] == '#' && Header[2] == ' '
    ensures forall k :: 2 <= k < |Header| ==> Header[k] != '#'
  {
  }

  /** Folding never turns another code point into '#' or ' '. */
  lemma FoldKeepsPunctuation(c: char)
    ensures FoldCase(c) == '#' <==> c == '#'
    ensures FoldCase(c) == ' ' <==> c == ' '
  {
  }

  /**
   * For a pattern shaped like a Markdown heading ("##", a space, no further '#'), a lazy
   * section that starts with the pattern up to case contains it exactly nowhere but,
   * possibly, at its start.
   */
  lemma HeadingOccursOnlyAtStart(sec: string, p: string)
    requires |p| >= 3 && p[0] == '#' && p[1] == '#' && p[2] == ' '
    requires forall k :: 2 <= k < |p| ==> p[k] != '#'
    requires OccursAtIgnoringCase(sec, 0, p)
    requires forall k: nat :: |p| <= k ==> !OccursAt(sec, k, HeadingMark)
    ensures forall k: nat :: 0 < k ==> !OccursAt(sec, k, p)
  {
    forall k: nat | 0 < k ensures !OccursAt(sec, k, p) {
      if k + |p| <= |sec| {
        if k == 1 {
          FoldKeepsPunctuation(sec[2]);
          assert FoldCase(sec[0 + 2]) == FoldCase(p[2]);
          assert sec[1..1 + |p|][1] == sec[2];
        } else if k < |p| {
          FoldKeepsPunctuation(sec[k]);
          FoldKeepsPunctuation(p[k]);
          assert FoldCase(sec[0 + k]) == FoldCase(p[k]);
          assert sec[k..k + |p|][0] == sec[k];
        } else {
          assert !OccursAt(sec, k, HeadingMark);
          assert sec[k..k + |p|][..2] == sec[k..k + 2];
        }
      }
    }
  }

  /**
   * Removing the header is case-sensitive: when the matched section starts with a
   * differently-cased header, nothing is removed and the header stays in the copied text.
   */
  lemma HeaderRemovalIsCaseSensitive(report: string)
    requires MessageSection(report).Some?
    requires !StartsWith(MessageSection(report).value, Header)
    ensures RemoveFirst(MessageSection(report).value, Header) == MessageSection(report).value
  {
    var sec := MessageSection(report).value;
    var i := IndexOfIgnoringCase(report, Header).value;
    HeaderHashes();
    OccurrenceAtSliceStart(report, Header, i, sec);
    HeadingOccursOnlyAtStart(sec, Header);
    assert !OccursAt(sec, 0, Header);
  }

  /** With the header in its exact case, the section loses precisely its first |Header| code points. */
  lemma ExactHeaderIsRemoved(report: string)
    requires MessageSection(report).Some?
    requires StartsWith(MessageSection(report).value, Header)
    ensures RemoveFirst(MessageSection(report).value, Header) == MessageSection(report).value[|Header|..]
  {
  }

  /** A report that contains the header verbatim always has a section, starting no later than it. */
  lemma ExactHeaderIsFound(report: string, i: nat)
    requires OccursAt(report, i, Header)
    ensures MessageSection(report).Some?
    ensures IndexOfIgnoringCase(report, Header).value <= i
  {
    ExactOccurrenceIgnoresCase(report, i, Header);
  }

  /** A report without the header is copied whole, minus the note and outer white space. */
  lemma NoHeaderCopiesWholeReport(report: string)
    requires forall i: nat :: !OccursAtIgnoringCase(report, i, Header)
    ensures ExtractMessage(report) == Trim(RemoveFirstIgnoringCase(report, CopyPasteNote))
  {
  }
}
