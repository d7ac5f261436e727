// Small text helpers: the PDF text cleaner, user initials and the
// large-document test.
module Text {
  import opened Common

  // ---------------------------------------------------------------------
  // `clean_text_for_pdf`
  // ---------------------------------------------------------------------

  predicate IsAscii(s: string)
  {
    forall i :: 0 <= i < |s| ==> s[i] < 128 as char
  }

  /** The replacement table: typographic punctuation, symbols and accented letters. */
  function Replacement(c: char): Option<string>
  {
    match c
    case '\U{2013}' => Some("-")      // en dash
    case '\U{2014}' => Some("-")      // em dash
    case '\U{2018}' => Some("'")      // left single quote
    case '\U{2019}' => Some("'")      // right single quote
    case '\U{201C}' => Some("\"")     // left double quote
    case '\U{201D}' => Some("\"")     // right double quote
    case '\U{00A0}' => Some(" ")      // non-breaking space
    case '\U{200B}' => Some("")       // zero-width space
    case '\U{2026}' => Some("...")    // ellipsis
    case '\U{2122}' => Some("(TM)")   // trademark
    case '\U{00AE}' => Some("(R)")    // registered
    case '\U{00B0}' => Some("deg")    // degree
    case '\U{20AC}' => Some("EUR")    // euro
    case '\U{00A3}' => Some("GBP")    // pound
    case '\U{00A5}' => Some("JPY")    // yen
    case '\U{00A9}' => Some("(C)")    // copyright
    case '\U{00E9}' => Some("e")
    case '\U{00E8}' => Some("e")
    case '\U{00EA}' => Some("e")
    case '\U{00EB}' => Some("e")
    case '\U{00E0}' => Some("a")
    case '\U{00E1}' => Some("a")
    case '\U{00E2}' => Some("a")
    case '\U{00E4}' => Some("a")
    case '\U{00FC}' => Some("u")
    case '\U{00F1}' => Some("n")
    case '\U{00E7}' => Some("c")
    case _ => None
  }

  /** What one character becomes: its replacement, itself if ASCII, otherwise `_`. */
  function CleanChar(c: char): string
  {
    if Replacement(c).Some? then Replacement(c).value
    else if c < 128 as char then [c]
    else "_"
  }

  /** The cleaned text, character by character. */
  function Cleaned(s: string): string
  {
    if |s| == 0 then "" else Cleaned(s[..|s| - 1]) + CleanChar(s[|s| - 1])
  }

  /** The table maps only non-ASCII characters, and only to ASCII text. */
  lemma ReplacementShape(c: char)
    ensures Replacement(c).Some? ==> c >= 128 as char && IsAscii(Replacement(c).value)
  {
  }

  lemma CleanCharAscii(c: char)
    ensures IsAscii(CleanChar(c))
    ensures c < 128 as char ==> CleanChar(c) == [c]
  {
    ReplacementShape(c);
  }

  /** Every character of the output is ASCII. */
  lemma {:induction false} CleanedIsAscii(s: string)
    ensures IsAscii(Cleaned(s))
  {
    if |s| > 0 {
      CleanedIsAscii(s[..|s| - 1]);
      CleanCharAscii(s[|s| - 1]);
    }
  }

  /** ASCII text comes back unchanged. */
  lemma {:induction false} CleanedFixesAscii(s: string)
    requires IsAscii(s)
    ensures Cleaned(s) == s
  {
    if |s| > 0 {
      var n := |s| - 1;
      AsciiPrefix(s, n);
      CleanedFixesAscii(s[..n]);
      CleanedSnocAscii(s);
    }
  }

  lemma AsciiPrefix(s: string, n: int)
    requires IsAscii(s) && 0 <= n <= |s|
    ensures IsAscii(s[..n])
  {
    forall i | 0 <= i < n
      ensures s[..n][i] < 128 as char
    {
      assert s[..n][i] == s[i];
    }
  }

  /** An ASCII character appended to text that cleaning leaves alone is left alone too. */
  lemma CleanedSnocAscii(s: string)
    requires |s| > 0 && s[|s| - 1] < 128 as char && Cleaned(s[..|s| - 1]) == s[..|s| - 1]
    ensures Cleaned(s) == s
  {
    var n := |s| - 1;
    CleanedSnoc(s);
    CleanCharAscii(s[n]);
    SplitLast(s);
  }

  lemma CleanedSnoc(s: string)
    requires |s| > 0
    ensures Cleaned(s) == Cleaned(s[..|s| - 1]) + CleanChar(s[|s| - 1])
  {
  }

  /** Cleaning twice is cleaning once. */
  lemma CleanedIdempotent(s: string)
    ensures Cleaned(Cleaned(s)) == Cleaned(s)
  {
    CleanedIsAscii(s);
    CleanedFixesAscii(Cleaned(s));
  }

  /** Cleaning works character by character, so it distributes over concatenation. */
  lemma {:induction false} CleanedAppend(a: string, b: string)
    ensures Cleaned(a + b) == Cleaned(a) + Cleaned(b)
    decreases |b|
  {
    if |b| > 0 {
      var n := |b| - 1;
      assert (a + b)[..|a| + n] == a + b[..n];
      CleanedAppend(a, b[..n]);
    } else {
      assert a + b == a;
    }
  }

  /** `clean_text_for_pdf`: `None` gives the empty string; otherwise the result is built up character by character. */
  method CleanTextForPdf(text: Option<string>) returns (result: string)
    ensures text.None? ==> result == ""
    ensures text.Some? ==> result == Cleaned(text.value)
  {
    if text.None? {
      return "";
    }
    var s := text.value;
    result := "";
    var i := 0;
    while i < |s|
      invariant 0 <= i <= |s|
      invariant result == Cleaned(s[..i])
    {
      assert s[..i + 1][..i] == s[..i];
      var c := s[i];
      var r := Replacement(c);
      if r.Some? {
        result := result + r.value;
      } else if c < 128 as char {
        result := result + [c];
      } else {
        result := result + "_";
      }
      i := i + 1;
    }
    assert s[..i] == s;
  }

  // ---------------------------------------------------------------------
  // `get_user_initials`
  // ---------------------------------------------------------------------

  /** The length of the run of non-space characters that starts `s`. */
  function WordLength(s: string): (n: nat)
    ensures n <= |s|
    ensures forall i :: 0 <= i < n ==> !IsSpace(s[i])
    ensures n < |s| ==> IsSpace(s[n])
  {
    if |s| == 0 || IsSpace(s[0]) then 0 else 1 + WordLength(s[1..])
  }

  /** `s.split()`: the maximal runs of non-space characters, in order. */
  function Words(s: string): (ws: seq<string>)
    decreases |s|
  {
    if |s| == 0 then []
    else if IsSpace(s[0]) then Words(s[1..])
    else
      var n := WordLength(s);
      [s[..n]] + Words(s[n..])
  }

  predicate NoSpace(s: string)
  {
    forall i :: 0 <= i < |s| ==> !IsSpace(s[i])
  }

  /** The characters of `s` that are not whitespace, in order. */
  function NonSpace(s: string): string
  {
    if |s| == 0 then "" else (if IsSpace(s[0]) then "" else [s[0]]) + NonSpace(s[1..])
  }

  function Concat(ws: seq<string>): string
  {
    if |ws| == 0 then "" else ws[0] + Concat(ws[1..])
  }

  /** Each word is non-empty and holds no whitespace, and together they are exactly the non-space characters. */
  lemma {:induction false} WordsShape(s: string)
    ensures forall k :: 0 <= k < |Words(s)| ==> |Words(s)[k]| > 0 && NoSpace(Words(s)[k])
    ensures Concat(Words(s)) == NonSpace(s)
    decreases |s|
  {
    if |s| == 0 {
    } else if IsSpace(s[0]) {
      WordsShape(s[1..]);
    } else {
      var n := WordLength(s);
      WordsShape(s[n..]);
      NonSpaceSplit(s, n);
      assert NonSpace(s[..n]) == s[..n] by {
        NonSpaceOfWord(s[..n]);
      }
    }
  }

  lemma {:induction false} NonSpaceOfWord(w: string)
    requires NoSpace(w)
    ensures NonSpace(w) == w
  {
    if |w| > 0 {
      NonSpaceOfWord(w[1..]);
    }
  }

  lemma {:induction false} NonSpaceSplit(s: string, n: nat)
    requires n <= |s|
    ensures NonSpace(s) == NonSpace(s[..n]) + NonSpace(s[n..])
  {
    if n > 0 {
      NonSpaceSplit(s[1..], n - 1);
      assert s[1..][..n - 1] == s[..n][1..];
      assert s[1..][n - 1..] == s[n..];
    }
  }

  /** A string with no whitespace is one word. */
  lemma WordsOfWord(s: string)
    requires |s| > 0 && NoSpace(s)
    ensures Words(s) == [s]
  {
    assert WordLength(s) == |s|;
    assert s[..|s|] == s;
  }

  /** Upper case of one character: ASCII letters only. */
  function UpperChar(c: char): char
  {
    if 'a' <= c <= 'z' then (c as int - 32) as char else c
  }

  /** `str.upper()` on ASCII letters; other characters are kept. */
  function Upper(s: string): (u: string)
    ensures |u| == |s|
    ensures forall i :: 0 <= i < |s| ==> u[i] == UpperChar(s[i])
  {
    if |s| == 0 then "" else [UpperChar(s[0])] + Upper(s[1..])
  }

  const Bust: string := "\U{1F464}"

  /**
   * `get_user_initials`: empty or missing name gives the bust emoji; two or
   * more words give the first letters of the first and last words; one word
   * its first two characters; all in upper case.
   */
  function UserInitials(name: Option<string>): (r: string)
  {
    if name.None? || name.value == "" then Bust
    else InitialsOf(Words(Strip(name.value)))
  }

  /** At most the first `n` characters of `w`. */
  function Prefix(w: string, n: nat): string
  {
    w[..if |w| < n then |w| else n]
  }

  /**
   * The initials of the words of a stripped, non-empty name. Words are never
   * empty, so `Prefix(w, 1)` is `w[0]`.
   */
  function InitialsOf(ws: seq<string>): string
  {
    if |ws| >= 2 then Upper(Prefix(ws[0], 1) + Prefix(ws[|ws| - 1], 1))
    else if |ws| == 1 then Upper(Prefix(ws[0], 2))
    else Bust
  }

  /** With a first word, the first initial is the upper-cased first letter of the first word. */
  lemma InitialsOfFirst(ws: seq<string>)
    requires |ws| > 0 && |ws[0]| > 0
    ensures |InitialsOf(ws)| > 0 && InitialsOf(ws)[0] == UpperChar(ws[0][0])
  {
  }

  /** With two or more words, the second initial is the upper-cased first letter of the last word. */
  lemma InitialsOfLast(ws: seq<string>)
    requires |ws| >= 2 && |ws[0]| > 0 && |ws[|ws| - 1]| > 0
    ensures |InitialsOf(ws)| == 2 && InitialsOf(ws)[1] == UpperChar(ws[|ws| - 1][0])
  {
  }

  /** The result is the emoji, two letters, or the one-word name's first one or two letters. */
  lemma InitialsShape(name: Option<string>)
    ensures var r := UserInitials(name);
      r == Bust || |r| == 2 || (|r| == 1 && name.Some? && |Words(name.value)| == 1)
  {
    if name.Some? && name.value != "" {
      var words := Words(Strip(name.value));
      WordsShape(Strip(name.value));
      StripKeepsWords(name.value);
    }
  }

  /** The first initial is the upper-cased first non-space character of the name. */
  lemma InitialsFirst(name: string, i: int)
    requires 0 <= i < |name| && !IsSpace(name[i])
    requires forall k :: 0 <= k < i ==> IsSpace(name[k])
    ensures var r := UserInitials(Some(name)); |r| > 0 && r[0] == UpperChar(name[i])
  {
    StripKeepsWords(name);
    FirstWordStart(name, i);
    InitialsOfFirst(Words(Strip(name)));
  }

  /**
   * With two or more words, the second initial is the upper-cased first
   * letter of the last word: the name is some text holding a word, a
   * whitespace, the last word `w`, then only whitespace.
   */
  lemma InitialsLast(a: string, c: char, w: string, b: string, i: int)
    requires 0 <= i < |a| && !IsSpace(a[i]) && IsSpace(c)
    requires |w| > 0 && NoSpace(w)
    requires forall k :: 0 <= k < |b| ==> IsSpace(b[k])
    ensures var r := UserInitials(Some(a + [c] + w + b)); |r| == 2 && r[1] == UpperChar(w[0])
  {
    var name := a + [c] + w + b;
    LastWordOf(a, c, w, b, i);
    InitialsOfLast(Words(name));
    StripKeepsWords(name);
    assert UserInitials(Some(name)) == InitialsOf(Words(name));
  }

  /** The words of such a name: at least one before the whitespace, and `w` last. */
  lemma LastWordOf(a: string, c: char, w: string, b: string, i: int)
    requires 0 <= i < |a| && !IsSpace(a[i]) && IsSpace(c)
    requires |w| > 0 && NoSpace(w)
    requires forall k :: 0 <= k < |b| ==> IsSpace(b[k])
    ensures var ws := Words(a + [c] + w + b); |ws| >= 2 && |ws[0]| > 0 && ws[|ws| - 1] == w
  {
    assert a + [c] + w + b == a + [c] + (w + b);
    WordsSplitAtSpace(a, c, w + b);
    WordsBeforeBlank(w, b);
    WordsNonEmpty(a, i);
  }

  /** A word followed by whitespace only is one word. */
  lemma WordsBeforeBlank(w: string, b: string)
    requires |w| > 0 && NoSpace(w)
    requires forall k :: 0 <= k < |b| ==> IsSpace(b[k])
    ensures Words(w + b) == [w]
  {
    WordsOfWord(w);
    if |b| == 0 {
      assert w + b == w;
    } else {
      SplitFirst(w, b);
      WordsSplitAtSpace(w, b[0], b[1..]);
      NoWordsInBlank(b);
      assert Words(b) == Words(b[1..]);
    }
  }

  lemma SplitFirst<T>(w: seq<T>, b: seq<T>)
    requires |b| > 0
    ensures w + b == w + [b[0]] + b[1..]
  {
  }

  /** A string with a non-space character has a first word, and it is not empty. */
  lemma {:induction false} WordsNonEmpty(s: string, i: int)
    requires 0 <= i < |s| && !IsSpace(s[i])
    ensures |Words(s)| > 0 && |Words(s)[0]| > 0
  {
    if IsSpace(s[0]) {
      WordsNonEmpty(s[1..], i - 1);
    }
  }

  /** A stripped name without whitespace is one word: its first two characters, upper-cased. */
  lemma InitialsOneWord(name: string)
    requires |Strip(name)| > 0 && NoSpace(Strip(name))
    ensures var t := Strip(name);
      UserInitials(Some(name)) == Upper(t[..if |t| < 2 then |t| else 2])
  {
    WordsOfWord(Strip(name));
  }

  /** The first word starts at the first non-space character. */
  lemma {:induction false} FirstWordStart(s: string, i: int)
    requires 0 <= i < |s| && !IsSpace(s[i])
    requires forall k :: 0 <= k < i ==> IsSpace(s[k])
    ensures |Words(s)| > 0 && |Words(s)[0]| > 0 && Words(s)[0][0] == s[i]
  {
    if i > 0 {
      FirstWordStart(s[1..], i - 1);
    }
  }

  /** `split()` breaks at every whitespace character. */
  lemma {:induction false} WordsSplitAtSpace(a: string, c: char, b: string)
    requires IsSpace(c)
    ensures Words(a + [c] + b) == Words(a) + Words(b)
    decreases |a|
  {
    var s := a + [c] + b;
    if |a| == 0 {
      assert s[1..] == b;
    } else if IsSpace(a[0]) {
      assert s[1..] == a[1..] + [c] + b;
      WordsSplitAtSpace(a[1..], c, b);
    } else {
      var n := WordLength(a);
      WordLengthStops(a, c, b);
      assert s[..n] == a[..n];
      assert s[n..] == a[n..] + [c] + b;
      WordsSplitAtSpace(a[n..], c, b);
    }
  }

  /** A word of `a` ends no later than a whitespace appended after it. */
  lemma {:induction false} WordLengthStops(a: string, c: char, b: string)
    requires IsSpace(c)
    ensures WordLength(a + [c] + b) == WordLength(a)
  {
    if |a| == 0 {
    } else if !IsSpace(a[0]) {
      assert (a + [c] + b)[1..] == a[1..] + [c] + b;
      WordLengthStops(a[1..], c, b);
    }
  }

  /** Whitespace-only names (there are no words) give the emoji. */
  lemma BlankNameInitials(name: string)
    requires forall i :: 0 <= i < |name| ==> IsSpace(name[i])
    ensures UserInitials(Some(name)) == Bust
  {
    StripKeepsWords(name);
    NoWordsInBlank(name);
  }

  lemma {:induction false} NoWordsInBlank(s: string)
    requires forall i :: 0 <= i < |s| ==> IsSpace(s[i])
    ensures Words(s) == []
  {
    if |s| > 0 {
      NoWordsInBlank(s[1..]);
    }
  }

  /** `strip()` before `split()` changes nothing. */
  lemma StripKeepsWords(s: string)
    ensures Words(Strip(s)) == Words(s)
  {
    LStripKeepsWords(s);
    RStripKeepsWords(LStrip(s));
  }

  lemma {:induction false} LStripKeepsWords(s: string)
    ensures Words(LStrip(s)) == Words(s)
  {
    if |s| > 0 && IsSpace(s[0]) {
      LStripKeepsWords(s[1..]);
    }
  }

  lemma {:induction false} RStripKeepsWords(s: string)
    ensures Words(RStrip(s)) == Words(s)
    decreases |s|
  {
    if |s| > 0 && IsSpace(s[|s| - 1]) {
      RStripKeepsWords(s[..|s| - 1]);
      TrailingSpace(s[..|s| - 1], s[|s| - 1]);
      assert s[..|s| - 1] + [s[|s| - 1]] == s;
    }
  }

  /** A trailing space adds no word. */
  lemma {:induction false} TrailingSpace(s: string, c: char)
    requires IsSpace(c)
    ensures Words(s + [c]) == Words(s)
    decreases |s|
  {
    if |s| == 0 {
      assert ([c])[1..] == [];
    } else if IsSpace(s[0]) {
      assert (s + [c])[1..] == s[1..] + [c];
      TrailingSpace(s[1..], c);
    } else {
      var n := WordLength(s);
      WordLengthExtend(s, c);
      assert (s + [c])[..n] == s[..n];
      if n == |s| {
        assert (s + [c])[n..] == [c];
        assert ([c])[1..] == [];
        assert s[n..] == [];
      } else {
        assert (s + [c])[n..] == s[n..] + [c];
        TrailingSpace(s[n..], c);
      }
    }
  }

  lemma {:induction false} WordLengthExtend(s: string, c: char)
    requires IsSpace(c)
    ensures WordLength(s + [c]) == WordLength(s)
  {
    if |s| > 0 && !IsSpace(s[0]) {
      assert (s + [c])[1..] == s[1..] + [c];
      WordLengthExtend(s[1..], c);
    }
  }

  // ---------------------------------------------------------------------
  // `is_large_document`
  // ---------------------------------------------------------------------

  const LargePageCount: nat := 20
  const LargeFileSize: nat := 5 * 1024 * 1024
  const ComplexPageSize: nat := 250 * 1024

  /**
   * `is_large_document(doc, file_size)`: more than 20 pages, more than 5 MiB,
   * or more than 250 KiB per page on average. An empty document divides by
   * zero, which is `None` here.
   */
  function IsLargeDocument(pageCount: nat, fileSize: nat): (r: Option<bool>)
  {
    if pageCount == 0 then None
    else Some(pageCount > LargePageCount || fileSize > LargeFileSize
              || fileSize as real / pageCount as real > ComplexPageSize as real)
  }

  /**
   * The 5 MiB test never decides: up to 20 pages, more than 5 MiB already
   * means more than 250 KiB a page, so a document is large exactly when it
   * has more than 20 pages or more than 250 KiB a page.
   */
  lemma LargeDocumentByPagesOrDensity(pageCount: nat, fileSize: nat)
    ensures IsLargeDocument(pageCount, fileSize) ==
      if pageCount == 0 then None
      else Some(pageCount > LargePageCount || fileSize > ComplexPageSize * pageCount)
  {
    if pageCount > 0 {
      var p, f := pageCount as real, fileSize as real;
      assert f / p > ComplexPageSize as real <==> f > ComplexPageSize as real * p by {
        if f / p > ComplexPageSize as real {
          assert f == (f / p) * p;
        }
        if f > ComplexPageSize as real * p {
          assert f / p == f * (1.0 / p);
        }
      }
      if pageCount <= LargePageCount && fileSize > LargeFileSize {
        assert ComplexPageSize * pageCount <= ComplexPageSize * 20;
      }
    }
  }
}
