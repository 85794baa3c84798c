/**
 * The few Python `str` operations the codec relies on, with Python's meaning:
 * `strip()`, `split('\n')`, `'\n'.join(...)`, `replace('_', ' ')`,
 * `startswith('_')` and `str()` of an integer.
 */
module PyText {

  /** `c.isspace()` for a single character, as CPython defines it. */
  predicate IsSpace(c: char) {
    c in {'\t', '\n', '\U{0B}', '\U{0C}', '\r', '\U{1C}', '\U{1D}', '\U{1E}', '\U{1F}', ' ',
          '\U{85}', '\U{A0}', '\U{1680}', '\U{2000}', '\U{2001}', '\U{2002}', '\U{2003}',
          '\U{2004}', '\U{2005}', '\U{2006}', '\U{2007}', '\U{2008}', '\U{2009}', '\U{200A}',
          '\U{2028}', '\U{2029}', '\U{202F}', '\U{205F}', '\U{3000}'}
  }

  /** Every character of `s` is whitespace (the empty string included). */
  predicate IsBlank(s: string) {
    forall i :: 0 <= i < |s| ==> IsSpace(s[i])
  }

  function StripLeft(s: string): (r: string)
    ensures |r| <= |s| && r == s[|s| - |r|..]
    ensures r == [] || !IsSpace(r[0])
  {
    if s != [] && IsSpace(s[0]) then StripLeft(s[1..]) else s
  }

  function StripRight(s: string): (r: string)
    ensures |r| <= |s| && r == s[..|r|]
    ensures r == [] || !IsSpace(r[|r| - 1])
  {
    if s != [] && IsSpace(s[|s| - 1]) then StripRight(s[..|s| - 1]) else s
  }

  /** What `StripLeft` drops is whitespace. */
  lemma {:induction false} StripLeftDropsBlank(s: string)
    ensures IsBlank(s[..|s| - |StripLeft(s)|])
  {
    if s != [] && IsSpace(s[0]) {
      StripLeftDropsBlank(s[1..]);
      assert s[..|s| - |StripLeft(s)|] == [s[0]] + s[1..][..|s[1..]| - |StripLeft(s[1..])|];
    }
  }

  /** What `StripRight` drops is whitespace. */
  lemma {:induction false} StripRightDropsBlank(s: string)
    ensures IsBlank(s[|StripRight(s)|..])
  {
    if s != [] && IsSpace(s[|s| - 1]) {
      StripRightDropsBlank(s[..|s| - 1]);
      assert s[|StripRight(s)|..] == s[..|s| - 1][|StripRight(s[..|s| - 1])|..] + [s[|s| - 1]];
    }
  }

  /** `s.strip()`: no whitespace is left at either end (`StripInfix` says what is removed). */
  function Strip(s: string): (r: string)
    ensures r == [] || (!IsSpace(r[0]) && !IsSpace(r[|r| - 1]))
  {
    StripRight(StripLeft(s))
  }

  /**
   * `s.strip()` is an infix of `s`, and what lies before and after it is all
   * whitespace; with the ensures of `Strip`, this makes it the longest infix
   * whose ends are not whitespace.
   */
  lemma StripInfix(s: string)
    ensures exists i :: 0 <= i <= |s| - |Strip(s)| && Strip(s) == s[i..i + |Strip(s)|]
                        && IsBlank(s[..i]) && IsBlank(s[i + |Strip(s)|..])
  {
    var l := StripLeft(s);
    StripLeftDropsBlank(s);
    StripRightDropsBlank(l);
    var i := |s| - |l|;
    var r := StripRight(l);
    assert l == s[i..];
    assert r == l[..|r|];
    assert r == s[i..i + |r|];
    assert s[i + |r|..] == l[|r|..];
    assert Strip(s) == r;
    assert IsBlank(s[..i]) && IsBlank(s[i + |r|..]);
  }

  /** Neither end of `s` is whitespace. */
  predicate Trimmed(s: string) {
    s == [] || (!IsSpace(s[0]) && !IsSpace(s[|s| - 1]))
  }

  /** A string with no whitespace at either end is its own strip. */
  lemma StripTrimmed(s: string)
    requires Trimmed(s)
    ensures Strip(s) == s
  {
  }

  /** A line is dropped by `if line.strip()` exactly when it is made of whitespace only. */
  lemma {:induction false} StripEmptyIffBlank(s: string)
    ensures Strip(s) == [] <==> IsBlank(s)
  {
    var l := StripLeft(s);
    if Strip(s) == [] {
      StripLeftDropsBlank(s);
      StripRightDropsBlank(l);
      assert s == s[..|s| - |l|] + l;
    }
  }

  /** `s.split('\n')`: never empty, and no piece holds a newline. */
  function Split(s: string): (r: seq<string>)
    ensures |r| >= 1
    ensures forall k :: 0 <= k < |r| ==> '\n' !in r[k]
  {
    if s == [] then [[]]
    else
      var rest := Split(s[1..]);
      if s[0] == '\n' then [[]] + rest
      else [[s[0]] + rest[0]] + rest[1..]
  }

  /** `'\n'.join(lines)` */
  function Join(lines: seq<string>): string {
    if lines == [] then []
    else if |lines| == 1 then lines[0]
    else lines[0] + "\n" + Join(lines[1..])
  }

  /** Joining the pieces of `s.split('\n')` gives `s` back: the pieces are what lies between the newlines. */
  lemma {:induction false} JoinSplit(s: string)
    ensures Join(Split(s)) == s
  {
    if s != [] {
      var rest := Split(s[1..]);
      JoinSplit(s[1..]);
      if s[0] == '\n' {
        assert Split(s) == [[]] + rest && ([[]] + rest)[1..] == rest;
        assert Join(Split(s)) == [] + "\n" + Join(rest);
      } else {
        var pieces := [[s[0]] + rest[0]] + rest[1..];
        assert Split(s) == pieces && pieces[1..] == rest[1..];
        if |rest| == 1 {
          assert Join(pieces) == [s[0]] + rest[0] == [s[0]] + Join(rest);
        } else {
          assert Join(rest) == rest[0] + "\n" + Join(rest[1..]);
          assert Join(pieces) == [s[0]] + rest[0] + "\n" + Join(rest[1..]);
        }
        assert [s[0]] + s[1..] == s;
      }
    }
  }

  lemma {:induction false} SplitNoNewline(a: string)
    requires '\n' !in a
    ensures Split(a) == [a]
  {
    if a != [] {
      assert a[0] != '\n' && '\n' !in a[1..];
      SplitNoNewline(a[1..]);
      assert [a[0]] + a[1..] == a;
    }
  }

  lemma {:induction false} SplitAtNewline(a: string, b: string)
    requires '\n' !in a
    ensures Split(a + "\n" + b) == [a] + Split(b)
  {
    if a == [] {
      assert a + "\n" + b == "\n" + b;
      assert ("\n" + b)[1..] == b;
    } else {
      assert (a + "\n" + b)[1..] == a[1..] + "\n" + b;
      SplitAtNewline(a[1..], b);
      assert [a[0]] + a[1..] == a;
    }
  }

  /** Splitting undoes joining when no line holds a newline. */
  lemma {:induction false} SplitJoin(lines: seq<string>)
    requires |lines| >= 1
    requires forall k :: 0 <= k < |lines| ==> '\n' !in lines[k]
    ensures Split(Join(lines)) == lines
  {
    if |lines| == 1 {
      SplitNoNewline(lines[0]);
    } else {
      SplitJoin(lines[1..]);
      SplitAtNewline(lines[0], Join(lines[1..]));
    }
  }

  /** `[line for line in lines if line.strip()]` */
  function NonBlank(lines: seq<string>): seq<string> {
    if lines == [] then []
    else (if Strip(lines[0]) != [] then [lines[0]] else []) + NonBlank(lines[1..])
  }

  lemma {:induction false} NonBlankKeepsAll(lines: seq<string>)
    requires forall k :: 0 <= k < |lines| ==> Strip(lines[k]) != []
    ensures NonBlank(lines) == lines
  {
    if lines != [] {
      NonBlankKeepsAll(lines[1..]);
    }
  }

  /**
   * The final pass of the encoder: `'\n'.join(line for line in text.split('\n') if line.strip())`.
   */
  function StripBlankLines(text: string): string {
    Join(NonBlank(Split(text)))
  }

  /** Splitting the joined non-blank lines gives them back. */
  lemma {:induction false} SplitOfKept(lines: seq<string>)
    requires forall k :: 0 <= k < |lines| ==> '\n' !in lines[k]
    ensures NonBlank(lines) != [] ==> Split(Join(NonBlank(lines))) == NonBlank(lines)
  {
    var kept := NonBlank(lines);
    if kept != [] {
      NonBlankLines(lines);
      SplitJoin(kept);
    }
  }

  /** Splitting the filtered text gives back the kept lines. */
  lemma {:induction false} SplitOfFiltered(text: string)
    ensures NonBlank(Split(text)) != [] ==> Split(StripBlankLines(text)) == NonBlank(Split(text))
  {
    var lines := Split(text);
    SplitOfKept(lines);
    assert StripBlankLines(text) == Join(NonBlank(lines));
  }

  /** The filtered text has no whitespace-only line (an empty text has no line at all). */
  lemma {:induction false} NoBlankLine(text: string)
    ensures StripBlankLines(text) == []
            || forall k :: 0 <= k < |Split(StripBlankLines(text))| ==> !IsBlank(Split(StripBlankLines(text))[k])
  {
    var kept := NonBlank(Split(text));
    SplitOfFiltered(text);
    NonBlankLines(Split(text));
    KeptLinesNotBlank(kept);
    if kept == [] {
      assert StripBlankLines(text) == [];
    } else {
      var lines := Split(StripBlankLines(text));
      assert lines == kept;
    }
  }

  lemma {:induction false} KeptLinesNotBlank(kept: seq<string>)
    requires forall k :: 0 <= k < |kept| ==> Strip(kept[k]) != []
    ensures forall k :: 0 <= k < |kept| ==> !IsBlank(kept[k])
  {
    forall k | 0 <= k < |kept| ensures !IsBlank(kept[k]) {
      StripEmptyIffBlank(kept[k]);
    }
  }

  /** The kept lines are lines of the input that are not blank. */
  lemma {:induction false} NonBlankLines(lines: seq<string>)
    ensures forall k :: 0 <= k < |NonBlank(lines)| ==> NonBlank(lines)[k] in lines && Strip(NonBlank(lines)[k]) != []
  {
    if lines != [] {
      NonBlankLines(lines[1..]);
    }
  }

  /** Filtering the joined non-blank lines again keeps every one of them. */
  lemma {:induction false} FilterTwice(lines: seq<string>)
    requires forall k :: 0 <= k < |lines| ==> '\n' !in lines[k]
    ensures NonBlank(Split(Join(NonBlank(lines)))) == NonBlank(lines)
  {
    var kept := NonBlank(lines);
    SplitOfKept(lines);
    if kept == [] {
      assert Join(kept) == [];
      NonBlankOfEmpty();
    } else {
      NonBlankLines(lines);
      NonBlankKeepsAll(kept);
    }
  }

  /** Filtering twice is filtering once. */
  lemma {:induction false} StripBlankLinesIdempotent(text: string)
    ensures StripBlankLines(StripBlankLines(text)) == StripBlankLines(text)
  {
    var lines := Split(text);
    FilterTwice(lines);
    assert StripBlankLines(text) == Join(NonBlank(lines));
  }

  lemma NonBlankOfEmpty()
    ensures NonBlank(Split([])) == []
  {
    assert Split([]) == [[]];
    assert Strip([]) == [];
    assert NonBlank([[]]) == [];
  }

  /** `s.replace('_', ' ')` */
  function UnderscoreToSpace(s: string): (r: string)
    ensures |r| == |s|
    ensures forall i :: 0 <= i < |s| ==> r[i] == (if s[i] == '_' then ' ' else s[i])
  {
    if s == [] then [] else [if s[0] == '_' then ' ' else s[0]] + UnderscoreToSpace(s[1..])
  }

  /** `s.startswith('_')` */
  predicate StartsWithUnderscore(s: string) {
    |s| > 0 && s[0] == '_'
  }

  function DigitChar(d: nat): char
    requires d < 10
  {
    "0123456789"[d]
  }

  function NatToString(n: nat): (r: string)
    ensures |r| >= 1
    decreases n
  {
    if n < 10 then [DigitChar(n)] else NatToString(n / 10) + [DigitChar(n % 10)]
  }

  /** `str(i)` for a Python int. */
  function IntToString(i: int): string {
    if i < 0 then "-" + NatToString(-i) else NatToString(i)
  }

  /** No digit is whitespace. */
  lemma DigitNotSpace(d: nat)
    requires d < 10
    ensures !IsSpace(DigitChar(d))
  {
  }

  /** The decimal text of a number starts and ends with a digit. */
  lemma {:induction false} NatToStringEnds(n: nat)
    ensures var r := NatToString(n);
            !IsSpace(r[0]) && !IsSpace(r[|r| - 1])
    decreases n
  {
    if n < 10 {
      DigitNotSpace(n);
    } else {
      NatToStringEnds(n / 10);
      DigitNotSpace(n % 10);
      assert NatToString(n)[0] == NatToString(n / 10)[0];
    }
  }

  /** `str(i)` has no surrounding whitespace, so `strip()` leaves it alone. */
  lemma IntToStringTrimmed(i: int)
    ensures Trimmed(IntToString(i))
  {
    if i < 0 {
      NatToStringEnds(-i);
      assert IntToString(i)[|IntToString(i)| - 1] == NatToString(-i)[|NatToString(-i)| - 1];
    } else {
      NatToStringEnds(i);
    }
  }
}
