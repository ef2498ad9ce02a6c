/**
  Text operations the report pipeline applies to names, headers and free text:
  Python's str.strip(), the `\s+` collapse of the header clean-up, the file-name
  sanitiser, the blank-line paragraph split, fixed-width padding and decimal digits.
*/
module Strings {
  import opened Basics

  /** The characters Python's str.isspace() accepts; str.strip() and the regex class `\s` use this set. */
  predicate IsSpace(c: char)
  {
    || c == ' ' || c == '\t' || c == '\n' || c == '\r' || c == '\U{B}' || c == '\U{C}'
    || ('\U{1C}' <= c <= '\U{1F}') || c == '\U{85}' || c == '\U{A0}' || c == '\U{1680}'
    || ('\U{2000}' <= c <= '\U{200A}') || c == '\U{2028}' || c == '\U{2029}'
    || c == '\U{202F}' || c == '\U{205F}' || c == '\U{3000}'
  }

  predicate AllSpace(s: string)
  {
    forall i :: 0 <= i < |s| ==> IsSpace(s[i])
  }

  /** Neither end of `s` is whitespace. */
  predicate IsStripped(s: string)
  {
    s == [] || (!IsSpace(s[0]) && !IsSpace(s[|s| - 1]))
  }

  /** str.lstrip(): the suffix of `s` left after dropping its leading whitespace. */
  function TrimLeft(s: string): (r: string)
    ensures |r| <= |s| && r == s[|s| - |r|..]
    ensures r == [] || !IsSpace(r[0])
    ensures AllSpace(s[..|s| - |r|])
  {
    if s != [] && IsSpace(s[0]) then
      var t := s[1..];
      var r := TrimLeft(t);
      var dropped := s[..|s| - |r|];
      assert AllSpace(dropped) by {
        forall i | 0 <= i < |dropped| ensures IsSpace(dropped[i]) {
          if i > 0 {
            assert dropped[i] == t[..|t| - |r|][i - 1];
          }
        }
      }
      r
    else s
  }

  /** str.rstrip(): the prefix of `s` left after dropping its trailing whitespace. */
  function TrimRight(s: string): (r: string)
    ensures |r| <= |s| && r == s[..|r|]
    ensures r == [] || !IsSpace(r[|r| - 1])
    ensures AllSpace(s[|r|..])
  {
    if s != [] && IsSpace(s[|s| - 1]) then TrimRight(s[..|s| - 1]) else s
  }

  /** `s` is `r` with whitespace before and after it. */
  predicate InWhitespace(r: string, s: string)
  {
    exists i :: 0 <= i <= |s| - |r| && r == s[i..i + |r|] && AllSpace(s[..i]) && AllSpace(s[i + |r|..])
  }

  /** str.strip(): `s` without its leading and trailing whitespace. */
  function Strip(s: string): (r: string)
    ensures IsStripped(r)
    ensures InWhitespace(r, s)
  {
    var l := TrimLeft(s);
    var r := TrimRight(l);
    StripSlices(s, l, r);
    r
  }

  /** A suffix left after leading whitespace, cut before trailing whitespace, is stripped and sits in `s` between whitespace. */
  lemma StripSlices(s: string, l: string, r: string)
    requires |l| <= |s| && l == s[|s| - |l|..] && (l == [] || !IsSpace(l[0])) && AllSpace(s[..|s| - |l|])
    requires |r| <= |l| && r == l[..|r|] && (r == [] || !IsSpace(r[|r| - 1])) && AllSpace(l[|r|..])
    ensures IsStripped(r)
    ensures InWhitespace(r, s)
  {
    if r != [] {
      assert r[0] == l[0];
    }
    var i := |s| - |l|;
    assert s[i + |r|..] == l[|r|..];
    assert r == s[i..i + |r|];
    assert AllSpace(s[..i]);
  }

  /** Stripping a string that is already stripped changes nothing; so Strip is idempotent. */
  lemma StrippedIsFixpoint(s: string)
    requires IsStripped(s)
    ensures Strip(s) == s
  {
  }

  /** `[p.strip() for p in parts]`. */
  function StripEach(parts: seq<string>): (r: seq<string>)
    ensures |r| == |parts| && forall k :: 0 <= k < |parts| ==> r[k] == Strip(parts[k])
  {
    seq(|parts|, k requires 0 <= k < |parts| => Strip(parts[k]))
  }

  /** No string of the list has whitespace at either end. */
  predicate AllStripped(parts: seq<string>)
  {
    forall k :: 0 <= k < |parts| ==> IsStripped(parts[k])
  }

  /** Stripping each of a list of stripped strings changes none of them. */
  lemma StripEachFixpoint(parts: seq<string>)
    requires AllStripped(parts)
    ensures StripEach(parts) == parts
  {
    var r := StripEach(parts);
    forall k | 0 <= k < |parts| ensures r[k] == parts[k] {
      StrippedIsFixpoint(parts[k]);
    }
    SameElements(r, parts);
  }

  lemma StripIdempotent(s: string)
    ensures Strip(Strip(s)) == Strip(s)
  {
    StrippedIsFixpoint(Strip(s));
  }

  /** No two whitespace characters are adjacent. */
  predicate NoDoubleSpace(s: string)
  {
    forall i, j :: 0 <= i < |s| && 0 <= j < |s| && j == i + 1 ==> !(IsSpace(s[i]) && IsSpace(s[j]))
  }

  /** The only whitespace in `s` is the plain space. */
  predicate OnlyPlainSpace(s: string)
  {
    forall i :: 0 <= i < |s| ==> IsSpace(s[i]) ==> s[i] == ' '
  }

  /** A character in front of a clean string keeps it clean unless two spaces meet. */
  lemma ConsClean(c: char, r: string)
    requires NoDoubleSpace(r) && OnlyPlainSpace(r)
    requires IsSpace(c) ==> c == ' ' && (r == [] || !IsSpace(r[0]))
    ensures NoDoubleSpace([c] + r) && OnlyPlainSpace([c] + r)
  {
    var s := [c] + r;
    forall i | 0 <= i < |s| - 1 ensures !(IsSpace(s[i]) && IsSpace(s[i + 1])) {
      if i > 0 {
        assert s[i] == r[i - 1] && s[i + 1] == r[i];
      }
    }
    forall i | 0 <= i < |s| ensures IsSpace(s[i]) ==> s[i] == ' ' {
      if i > 0 {
        assert s[i] == r[i - 1];
      }
    }
  }

  /** The length of the first word of `s`: its longest prefix without whitespace. */
  function WordLength(s: string): (n: nat)
    ensures n <= |s|
    ensures forall i :: 0 <= i < n ==> !IsSpace(s[i])
    ensures n < |s| ==> IsSpace(s[n])
  {
    if s == [] || IsSpace(s[0]) then 0 else 1 + WordLength(s[1..])
  }

  /** str.split() without arguments: the maximal runs of non-whitespace characters, in order. */
  function Words(s: string): seq<string>
    decreases |s|
  {
    if s == [] then []
    else if IsSpace(s[0]) then Words(s[1..])
    else
      var n := WordLength(s);
      [s[..n]] + Words(s[n..])
  }

  /** Leading whitespace separates no words. */
  lemma {:induction false} WordsTrimLeft(s: string)
    ensures Words(TrimLeft(s)) == Words(s)
    decreases |s|
  {
    if s != [] && IsSpace(s[0]) {
      WordsTrimLeft(s[1..]);
    }
  }

  /** A string of whitespace has no words. */
  lemma {:induction false} AllSpaceNoWords(s: string)
    requires AllSpace(s)
    ensures Words(s) == []
    decreases |s|
  {
    if s != [] {
      AllSpaceNoWords(s[1..]);
    }
  }

  /** WordLength is the only length its postconditions allow. */
  lemma WordLengthUnique(s: string, n: nat)
    requires n <= |s| && (forall i :: 0 <= i < n ==> !IsSpace(s[i])) && (n < |s| ==> IsSpace(s[n]))
    ensures WordLength(s) == n
  {
  }

  /** Trailing whitespace separates no words. */
  lemma {:induction false} WordsTrailingSpace(s: string, sp: string)
    requires AllSpace(sp)
    ensures Words(s + sp) == Words(s)
    decreases |s|
  {
    var x := s + sp;
    if s == [] {
      assert x == sp;
      AllSpaceNoWords(sp);
    } else if IsSpace(s[0]) {
      assert x[1..] == s[1..] + sp;
      WordsTrailingSpace(s[1..], sp);
    } else {
      var n := WordLength(s);
      assert n == |s| && sp != [] ==> x[n] == sp[0];
      WordLengthUnique(x, n);
      assert x[..n] == s[..n];
      assert x[n..] == s[n..] + sp;
      WordsTrailingSpace(s[n..], sp);
    }
  }

  /** Trailing whitespace separates no words. */
  lemma WordsTrimRight(s: string)
    ensures Words(TrimRight(s)) == Words(s)
  {
    var r := TrimRight(s);
    var sp := s[|r|..];
    assert s == r + sp;
    WordsTrailingSpace(r, sp);
  }

  /** str.strip() leaves the words alone. */
  lemma WordsStrip(s: string)
    ensures Words(Strip(s)) == Words(s)
  {
    WordsTrimLeft(s);
    WordsTrimRight(TrimLeft(s));
  }

  /** A word in front of `s` merges with the first word of `s` when nothing separates them. */
  lemma WordsCons(c: char, s: string)
    requires !IsSpace(c)
    ensures s == [] || IsSpace(s[0]) ==> Words([c] + s) == [[c]] + Words(s)
    ensures s != [] && !IsSpace(s[0]) ==> Words([c] + s) == [[c] + Words(s)[0]] + Words(s)[1..]
  {
    var x := [c] + s;
    var m := WordLength(s);
    assert x[1..] == s;
    WordLengthUnique(x, m + 1);
    assert x[..m + 1] == [c] + s[..m];
    assert x[m + 1..] == s[m..];
  }

  /** Dropping leading whitespace keeps the last character, unless nothing but whitespace was there. */
  lemma TrimLeftLast(s: string)
    ensures TrimLeft(s) != [] ==> TrimLeft(s)[|TrimLeft(s)| - 1] == s[|s| - 1]
    ensures TrimLeft(s) == [] && s != [] ==> IsSpace(s[|s| - 1])
  {
    var r := TrimLeft(s);
    if r == [] && s != [] {
      assert s[..|s|][|s| - 1] == s[|s| - 1];
    }
  }

  /** How a character reads once whitespace is collapsed: whitespace as a plain space. */
  function Plain(c: char): char
  {
    if IsSpace(c) then ' ' else c
  }

  /**
    The shape of `s` with every maximal run of whitespace replaced by one plain space: no
    two spaces meet, no other whitespace is left, and each end of `s` is kept (a
    whitespace end as a single space). CollapseWords adds that the words are kept.
  */
  predicate CollapseShape(s: string, r: string)
  {
    && NoDoubleSpace(r) && OnlyPlainSpace(r)
    && (s == [] <==> r == [])
    && (s != [] ==> r[0] == Plain(s[0]) && r[|r| - 1] == Plain(s[|s| - 1]))
  }

  /** re.sub(r"\s+", " ", s): every maximal run of whitespace becomes one space. */
  function CollapseSpaces(s: string): (r: string)
    ensures CollapseShape(s, r)
    decreases |s|
  {
    if s == [] then []
    else if IsSpace(s[0]) then
      var tail := CollapseSpaces(TrimLeft(s[1..]));
      CollapseAfterSpace(s, tail);
      " " + tail
    else
      var tail := CollapseSpaces(s[1..]);
      CollapseAfterWord(s, tail);
      [s[0]] + tail
  }

  /** A whitespace run at the front of `s` becomes one space in front of the collapse of the rest. */
  lemma CollapseAfterSpace(s: string, tail: string)
    requires s != [] && IsSpace(s[0]) && CollapseShape(TrimLeft(s[1..]), tail)
    ensures CollapseShape(s, " " + tail)
  {
    var t := s[1..];
    var rest := TrimLeft(t);
    var r := " " + tail;
    assert tail != [] ==> tail[0] == Plain(rest[0]) && !IsSpace(rest[0]);
    ConsClean(' ', tail);
    assert r[|r| - 1] == Plain(s[|s| - 1]) by {
      TrimLeftLast(t);
      assert t != [] ==> t[|t| - 1] == s[|s| - 1];
      assert r[|r| - 1] == if tail == [] then ' ' else tail[|tail| - 1];
    }
  }

  /** A non-whitespace character at the front of `s` stays in front of the collapse of the rest. */
  lemma CollapseAfterWord(s: string, tail: string)
    requires s != [] && !IsSpace(s[0]) && CollapseShape(s[1..], tail)
    ensures CollapseShape(s, [s[0]] + tail)
  {
    var t := s[1..];
    ConsClean(s[0], tail);
    assert t != [] ==> t[|t| - 1] == s[|s| - 1];
  }

  /** One space in front of a collapsed rest separates the same words as the whitespace run it replaces. */
  lemma WordsAfterSpace(s: string, tail: string)
    requires s != [] && IsSpace(s[0]) && Words(tail) == Words(TrimLeft(s[1..]))
    ensures Words(" " + tail) == Words(s)
  {
    var r := " " + tail;
    assert r[0] == ' ' && r[1..] == tail;
    WordsTrimLeft(s[1..]);
  }

  /** A character kept in front of a collapsed rest joins the same word it joined in `s`. */
  lemma WordsAfterWord(s: string, tail: string)
    requires s != [] && !IsSpace(s[0]) && Words(tail) == Words(s[1..]) && CollapseShape(s[1..], tail)
    ensures Words([s[0]] + tail) == Words(s)
  {
    var t := s[1..];
    assert s == [s[0]] + t;
    assert tail != [] ==> tail[0] == Plain(t[0]);
    WordsCons(s[0], t);
    WordsCons(s[0], tail);
  }

  /** Collapsing whitespace keeps the words of `s`, in order: s.split() is unchanged. */
  lemma {:induction false} CollapseWords(s: string)
    ensures Words(CollapseSpaces(s)) == Words(s)
    decreases |s|
  {
    if s != [] {
      var t := s[1..];
      if IsSpace(s[0]) {
        var rest := TrimLeft(t);
        CollapseWords(rest);
        WordsAfterSpace(s, CollapseSpaces(rest));
      } else {
        CollapseWords(t);
        WordsAfterWord(s, CollapseSpaces(t));
      }
    }
  }

  /** A header as the clean-up leaves it: stripped, one plain space between words. */
  predicate IsNormalHeader(s: string)
  {
    IsStripped(s) && NoDoubleSpace(s) && OnlyPlainSpace(s)
  }

  /**
    The header clean-up of all three renderers (analyza.py:195): strip the header, then
    collapse each whitespace run into one space.
  */
  function NormalizeHeader(s: string): (r: string)
    ensures IsNormalHeader(r)
  {
    CollapseSpaces(Strip(s))
  }

  /**
    The clean-up is " ".join(s.split()): it keeps the words of the header, in order, and
    puts one space between each.
  */
  lemma NormalizeHeaderJoin(s: string)
    ensures Words(NormalizeHeader(s)) == Words(s)
    ensures NormalizeHeader(s) == Join(Words(s), " ")
  {
    WordsStrip(s);
    CollapseWords(Strip(s));
    NormalJoin(NormalizeHeader(s));
  }

  /** What follows a space inside a normal header is a normal header. */
  lemma NormalSuffix(h: string, n: nat)
    requires IsNormalHeader(h) && n + 1 < |h| && IsSpace(h[n])
    ensures !IsSpace(h[n + 1]) && IsNormalHeader(h[n + 1..])
  {
    var rest := h[n + 1..];
    forall i | 0 <= i < |rest| - 1 ensures !(IsSpace(rest[i]) && IsSpace(rest[i + 1])) {
      assert rest[i] == h[n + 1 + i] && rest[i + 1] == h[n + 2 + i];
    }
    forall i | 0 <= i < |rest| ensures IsSpace(rest[i]) ==> rest[i] == ' ' {
      assert rest[i] == h[n + 1 + i];
    }
  }

  /** In a normal header the first word ends at a single space, and a normal header follows it. */
  lemma WordsAtSpace(h: string, n: nat)
    requires IsNormalHeader(h) && h != [] && n == WordLength(h) && n < |h|
    ensures n + 1 < |h| && IsNormalHeader(h[n + 1..])
    ensures Words(h) == [h[..n]] + Words(h[n + 1..]) && h == h[..n] + " " + h[n + 1..]
  {
    assert h[n] == ' ' && n + 1 < |h|;
    NormalSuffix(h, n);
    SplitAtSpace(h, n);
  }

  /** The first word of `h` ends at the space at `n`: the words of `h` are it and the words after the space. */
  lemma SplitAtSpace(h: string, n: nat)
    requires h != [] && !IsSpace(h[0]) && n == WordLength(h) && n < |h| && h[n] == ' '
    ensures Words(h) == [h[..n]] + Words(h[n + 1..]) && h == h[..n] + " " + h[n + 1..]
  {
    var sp := h[n..];
    assert sp[0] == ' ' && sp[1..] == h[n + 1..];
    assert Words(sp) == Words(h[n + 1..]);
    SpaceSplit(h, n);
  }

  /** Cutting `h` around the space at `n`. */
  lemma SpaceSplit(h: string, n: nat)
    requires n < |h| && h[n] == ' '
    ensures h == h[..n] + " " + h[n + 1..]
  {
    assert h[n..] == " " + h[n + 1..];
    assert h == h[..n] + h[n..];
  }

  /** A normal header is its words joined by single spaces. */
  lemma {:induction false} NormalJoin(h: string)
    requires IsNormalHeader(h)
    ensures Join(Words(h), " ") == h
    decreases |h|
  {
    if h != [] {
      var n := WordLength(h);
      if n == |h| {
        assert h[..n] == h && h[n..] == [];
      } else {
        var rest := h[n + 1..];
        WordsAtSpace(h, n);
        NormalJoin(rest);
        JoinCons(h[..n], Words(rest), " ");
      }
    }
  }

  /** Dropping the first character keeps a string free of double and non-plain whitespace. */
  lemma CleanTail(s: string)
    requires s != [] && NoDoubleSpace(s) && OnlyPlainSpace(s)
    ensures NoDoubleSpace(s[1..]) && OnlyPlainSpace(s[1..])
  {
    var t := s[1..];
    forall i | 0 <= i < |t| - 1 ensures !(IsSpace(t[i]) && IsSpace(t[i + 1])) {
      assert t[i] == s[i + 1] && t[i + 1] == s[i + 2];
    }
    forall i | 0 <= i < |t| ensures IsSpace(t[i]) ==> t[i] == ' ' {
      assert t[i] == s[i + 1];
    }
  }

  /** A string of single spaces with no double whitespace is its own collapse. */
  lemma {:induction false} CollapseFixpoint(s: string)
    requires NoDoubleSpace(s) && OnlyPlainSpace(s)
    ensures CollapseSpaces(s) == s
    decreases |s|
  {
    if s != [] {
      var t := s[1..];
      CleanTail(s);
      CollapseFixpoint(t);
      if IsSpace(s[0]) {
        assert s[0] == ' ';
        assert t != [] ==> t[0] == s[1] && !IsSpace(t[0]);
        assert TrimLeft(t) == t;
        assert CollapseSpaces(s) == " " + CollapseSpaces(t);
        assert s == " " + t;
      } else {
        assert CollapseSpaces(s) == [s[0]] + CollapseSpaces(t);
        assert s == [s[0]] + t;
      }
    }
  }

  /** The header clean-up is idempotent: a normal header is left as it is. */
  lemma NormalizeHeaderIdempotent(s: string)
    ensures NormalizeHeader(NormalizeHeader(s)) == NormalizeHeader(s)
  {
    var n := NormalizeHeader(s);
    StrippedIsFixpoint(n);
    CollapseFixpoint(n);
  }

  /** The nine characters the file-name sanitiser replaces (analyza.py:27). */
  predicate Forbidden(c: char)
  {
    c in "\\/*?:\"<>|"
  }

  /** sanitize_name: every forbidden character becomes `_`, every other one is kept. */
  function SanitizeName(s: string): (r: string)
    ensures |r| == |s|
    ensures forall i :: 0 <= i < |s| ==> r[i] == (if Forbidden(s[i]) then '_' else s[i])
  {
    if s == [] then [] else [if Forbidden(s[0]) then '_' else s[0]] + SanitizeName(s[1..])
  }

  /** A sanitised name holds none of the forbidden characters. */
  lemma SanitizedIsClean(s: string)
    ensures forall c :: c in SanitizeName(s) ==> !Forbidden(c)
  {
    var r := SanitizeName(s);
    forall c | c in r ensures !Forbidden(c) {
      var i :| 0 <= i < |r| && r[i] == c;
    }
  }

  /** Sanitising twice is sanitising once. */
  lemma SanitizeIdempotent(s: string)
    ensures SanitizeName(SanitizeName(s)) == SanitizeName(s)
  {
  }

  /** `s` contains no blank-line separator "\n\n". */
  predicate NoBlankLine(s: string)
  {
    forall i, j :: 0 <= i < |s| && 0 <= j < |s| && j == i + 1 ==> !(s[i] == '\n' && s[j] == '\n')
  }

  /** The position of the leftmost "\n\n" in `s`, if any. */
  function FindBlankLine(s: string): (r: Option<nat>)
    ensures r.Some? ==> r.value + 1 < |s| && s[r.value] == '\n' && s[r.value + 1] == '\n' && NoBlankLine(s[..r.value + 1])
    ensures r.None? ==> NoBlankLine(s)
  {
    if |s| < 2 then None
    else if s[0] == '\n' && s[1] == '\n' then Some(0)
    else match FindBlankLine(s[1..])
      case None => None
      case Some(k) => Some(k + 1)
  }

  /** str.split("\n\n"): the pieces between the separators, scanning from the left. */
  function SplitParagraphs(s: string): (parts: seq<string>)
    ensures |parts| >= 1
    ensures forall i :: 0 <= i < |parts| ==> NoBlankLine(parts[i])
    ensures forall i :: 0 <= i < |parts| - 1 ==> parts[i] == [] || parts[i][|parts[i]| - 1] != '\n'
    decreases |s|
  {
    match FindBlankLine(s)
    case None => [s]
    case Some(k) =>
      var first := s[..k];
      assert NoBlankLine(first) by { assert first == s[..k + 1][..k]; }
      assert first == [] || first[k - 1] != '\n' by {
        if k > 0 {
          assert s[..k + 1][k - 1] == first[k - 1] && s[..k + 1][k] == '\n';
        }
      }
      [first] + SplitParagraphs(s[k + 2..])
  }

  /** sep.join(parts). */
  function Join(parts: seq<string>, sep: string): string
  {
    if parts == [] then ""
    else if |parts| == 1 then parts[0]
    else parts[0] + sep + Join(parts[1..], sep)
  }

  /** Joining two non-empty lists is joining each and putting one separator between. */
  lemma {:induction false} JoinAppend(a: seq<string>, b: seq<string>, sep: string)
    requires a != [] && b != []
    ensures Join(a + b, sep) == Join(a, sep) + sep + Join(b, sep)
    decreases |a|
  {
    if |a| == 1 {
      assert (a + b)[1..] == b;
    } else {
      JoinAppend(a[1..], b, sep);
      assert (a + b)[1..] == a[1..] + b;
    }
  }

  /** Joining a first piece in front of a non-empty list puts one separator after it. */
  lemma JoinCons(x: string, parts: seq<string>, sep: string)
    requires parts != []
    ensures Join([x] + parts, sep) == x + sep + Join(parts, sep)
  {
    assert ([x] + parts)[1..] == parts;
  }

  /** A "\n\n" at `k` cuts `s` into the text before it, the separator, and the rest. */
  lemma BlankLineAt(s: string, k: nat)
    requires k + 1 < |s| && s[k] == '\n' && s[k + 1] == '\n'
    ensures s == s[..k] + "\n\n" + s[k + 2..]
  {
    assert s[k..k + 2] == "\n\n";
    assert s == s[..k] + s[k..k + 2] + s[k + 2..];
  }

  /** Splitting on blank lines loses nothing: joining the pieces back gives the text. */
  lemma {:induction false} JoinSplitParagraphs(s: string)
    ensures Join(SplitParagraphs(s), "\n\n") == s
    decreases |s|
  {
    match FindBlankLine(s)
    case None =>
    case Some(k) =>
      var rest := s[k + 2..];
      JoinSplitParagraphs(rest);
      assert SplitParagraphs(s) == [s[..k]] + SplitParagraphs(rest);
      JoinCons(s[..k], SplitParagraphs(rest), "\n\n");
      BlankLineAt(s, k);
  }

  /** `.replace("\n", "<br/>")`: each line break becomes a `<br/>` tag. */
  function BreakLines(s: string): string
  {
    if s == [] then []
    else (if s[0] == '\n' then "<br/>" else [s[0]]) + BreakLines(s[1..])
  }

  /** BreakLines works character by character: it distributes over concatenation ... */
  lemma {:induction false} BreakLinesAppend(a: string, b: string)
    ensures BreakLines(a + b) == BreakLines(a) + BreakLines(b)
    decreases |a|
  {
    if a == [] {
      assert a + b == b;
    } else {
      var head := if a[0] == '\n' then "<br/>" else [a[0]];
      assert (a + b)[0] == a[0] && (a + b)[1..] == a[1..] + b;
      BreakLinesAppend(a[1..], b);
      var x, y := BreakLines(a[1..]), BreakLines(b);
      assert BreakLines(a + b) == head + (x + y);
      assert BreakLines(a) == head + x;
      assert head + (x + y) == (head + x) + y;
    }
  }

  /** No line break is left, and a text without one is unchanged. */
  lemma {:induction false} BreakLinesClean(s: string)
    ensures '\n' !in BreakLines(s)
    ensures '\n' !in s ==> BreakLines(s) == s
    decreases |s|
  {
    if s != [] {
      BreakLinesClean(s[1..]);
      var head := if s[0] == '\n' then "<br/>" else [s[0]];
      assert BreakLines(s) == head + BreakLines(s[1..]);
      assert '\n' !in head;
      if '\n' !in s {
        assert s == [s[0]] + s[1..];
      }
    }
  }

  /** ... and turns a line break into `<br/>`, keeping every other character. */
  lemma BreakLinesChar(c: char)
    ensures BreakLines([c]) == if c == '\n' then "<br/>" else [c]
  {
    assert [c][1..] == [];
  }

  /** `n` spaces. */
  function Spaces(n: nat): (r: string)
    ensures |r| == n && AllSpace(r) && forall i :: 0 <= i < n ==> r[i] == ' '
  {
    if n == 0 then [] else Spaces(n - 1) + " "
  }

  function Max(a: int, b: int): int
  {
    if a < b then b else a
  }

  /** f"{s:w}" for a string: `s` left-aligned, padded with spaces to width `w`, never cut. */
  function PadRight(s: string, w: nat): (r: string)
    ensures |r| == Max(|s|, w)
    ensures r[..|s|] == s && forall i :: |s| <= i < |r| ==> r[i] == ' '
  {
    s + Spaces(if |s| < w then w - |s| else 0)
  }

  /** f"{s:>w}": `s` right-aligned, padded with spaces on the left to width `w`, never cut. */
  function PadLeft(s: string, w: nat): (r: string)
    ensures |r| == Max(|s|, w)
    ensures r[|r| - |s|..] == s && forall i :: 0 <= i < |r| - |s| ==> r[i] == ' '
  {
    Spaces(if |s| < w then w - |s| else 0) + s
  }

  predicate IsDigit(c: char)
  {
    '0' <= c <= '9'
  }

  predicate AllDigits(s: string)
  {
    forall i :: 0 <= i < |s| ==> IsDigit(s[i])
  }

  function Digit(d: nat): (c: char)
    requires d < 10
    ensures IsDigit(c)
  {
    "0123456789"[d]
  }

  function DigitValue(c: char): (d: nat)
    requires IsDigit(c)
    ensures d < 10
  {
    (c as int - '0' as int) as nat
  }

  /** A digit reads back as the value it was written for. */
  lemma DigitValueOf(d: nat)
    requires d < 10
    ensures DigitValue(Digit(d)) == d
  {
    var digits := "0123456789";
    assert forall k :: 0 <= k < 10 ==> digits[k] as int == '0' as int + k;
  }

  /** The decimal numeral of `n`, without leading zeros. */
  function NatToDecimal(n: nat): (r: string)
    ensures |r| >= 1 && AllDigits(r)
    ensures r[0] == '0' ==> n == 0 && r == "0"
    decreases n
  {
    if n < 10 then [Digit(n)] else NatToDecimal(n / 10) + [Digit(n % 10)]
  }

  /** The number a string of decimal digits denotes. */
  function DecimalValue(s: string): nat
    requires AllDigits(s)
  {
    if s == [] then 0 else DecimalValue(s[..|s| - 1]) * 10 + DigitValue(s[|s| - 1])
  }

  /** Reading back the numeral of `n` gives `n`. */
  lemma {:induction false} DecimalRoundTrip(n: nat)
    ensures DecimalValue(NatToDecimal(n)) == n
    decreases n
  {
    var r := NatToDecimal(n);
    if n >= 10 {
      DecimalRoundTrip(n / 10);
      assert r[..|r| - 1] == NatToDecimal(n / 10);
    }
  }
}
