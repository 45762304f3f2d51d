/**
 * The few functions of Go's strings and strconv packages the assembler
 * uses, on strings as sequences of Unicode code points.
 */
module GoStrings {
  import opened Wrappers

  /** unicode.IsSpace: the Latin-1 spaces and the other White_Space code points. */
  predicate IsSpace(c: char)
  {
    var n := c as int;
    || n == 0x20 || 0x09 <= n <= 0x0D || n == 0x85 || n == 0xA0 || n == 0x1680
    || 0x2000 <= n <= 0x200A || n == 0x2028 || n == 0x2029 || n == 0x202F || n == 0x205F || n == 0x3000
  }

  /** The index of the first occurrence of c in s, or -1. */
  function IndexOf(s: string, c: char): (i: int)
    ensures -1 <= i < |s|
    ensures i == -1 ==> forall j :: 0 <= j < |s| ==> s[j] != c
    ensures 0 <= i ==> s[i] == c && forall j :: 0 <= j < i ==> s[j] != c
  {
    if |s| == 0 then -1
    else if s[0] == c then 0
    else
      var j := IndexOf(s[1..], c);
      assert forall k :: 1 <= k < |s| ==> s[k] == s[1..][k - 1];
      if j < 0 then -1 else 1 + j
  }

  /** strings.Split with a one-character separator: the pieces between the separators. */
  function Split(s: string, sep: char): (parts: seq<string>)
    ensures |parts| >= 1
    ensures forall k :: 0 <= k < |parts| ==> sep !in parts[k]
    decreases |s|
  {
    var i := IndexOf(s, sep);
    if i < 0 then [s] else [s[..i]] + Split(s[i + 1..], sep)
  }

  /** strings.Join with a one-character separator. */
  function Join(parts: seq<string>, sep: char): string
    requires |parts| >= 1
  {
    if |parts| == 1 then parts[0] else parts[0] + [sep] + Join(parts[1..], sep)
  }

  /** Joining the pieces back with the separator gives the original string. */
  lemma {:induction false} JoinSplit(s: string, sep: char)
    ensures Join(Split(s, sep), sep) == s
    decreases |s|
  {
    var i := IndexOf(s, sep);
    if i >= 0 {
      JoinSplit(s[i + 1..], sep);
      JoinSplitStep(s, sep, i);
    } else {
      JoinSplitLast(s, sep);
    }
  }

  /** Without a separator, s is its own only piece. */
  lemma JoinSplitLast(s: string, sep: char)
    requires IndexOf(s, sep) < 0
    ensures Join(Split(s, sep), sep) == s
  {
    assert Split(s, sep) == [s];
  }

  /** The text before the first separator, the separator, then the rest rejoined. */
  lemma JoinSplitStep(s: string, sep: char, i: int)
    requires i == IndexOf(s, sep) && i >= 0
    requires Join(Split(s[i + 1..], sep), sep) == s[i + 1..]
    ensures Join(Split(s, sep), sep) == s
  {
    var head, rest := s[..i], s[i + 1..];
    var tail := Split(rest, sep);
    SplitCons(s, sep);
    assert ([head] + tail)[1..] == tail;
    assert Join([head] + tail, sep) == head + [sep] + rest;
    Around(s, i);
  }

  /** Split at a separator: the text before it, then the pieces of the text after it. */
  lemma SplitCons(s: string, sep: char)
    requires IndexOf(s, sep) >= 0
    ensures Split(s, sep) == [s[..IndexOf(s, sep)]] + Split(s[IndexOf(s, sep) + 1..], sep)
  {
  }

  /** A string is what comes before position i, the character at i, and what comes after. */
  lemma Around(s: string, i: int)
    requires 0 <= i < |s|
    ensures s == s[..i] + [s[i]] + s[i + 1..]
  {
  }

  /** Splitting a join of separator-free pieces gives the pieces back. */
  lemma {:induction false} SplitJoin(parts: seq<string>, sep: char)
    requires |parts| >= 1
    requires forall k :: 0 <= k < |parts| ==> sep !in parts[k]
    ensures Split(Join(parts, sep), sep) == parts
  {
    if |parts| > 1 {
      var tail := parts[1..];
      assert forall k :: 0 <= k < |tail| ==> tail[k] == parts[k + 1];
      SplitJoin(tail, sep);
      SplitJoinStep(parts[0], tail, sep);
      assert [parts[0]] + tail == parts;
    } else {
      assert Split(parts[0], sep) == [parts[0]];
    }
  }

  /** One separator-free piece in front of a join that splits back. */
  lemma SplitJoinStep(head: string, tail: seq<string>, sep: char)
    requires |tail| >= 1 && sep !in head
    requires Split(Join(tail, sep), sep) == tail
    ensures Split(Join([head] + tail, sep), sep) == [head] + tail
  {
    var rest := Join(tail, sep);
    assert ([head] + tail)[1..] == tail;
    var s := head + [sep] + rest;
    assert Join([head] + tail, sep) == s;
    assert s[..|head|] == head;
    assert IndexOf(s, sep) == |head| by {
      assert s[|head|] == sep;
      assert sep !in s[..|head|];
    }
    assert s[|head| + 1..] == rest;
  }

  /** The first piece of Split: everything before the first separator. */
  lemma SplitHead(s: string, sep: char)
    ensures var h := Split(s, sep)[0];
      && h <= s && sep !in h
      && (|h| < |s| ==> s[|h|] == sep)
  {
  }

  /** strings.HasPrefix. */
  predicate HasPrefix(s: string, prefix: string)
  {
    prefix <= s
  }

  /** strings.HasSuffix. */
  predicate HasSuffix(s: string, suffix: string)
  {
    |suffix| <= |s| && s[|s| - |suffix|..] == suffix
  }

  /** Drops the leading characters that cut accepts. */
  function TrimLeft(s: string, cut: char -> bool): (r: string)
    ensures |r| <= |s| && r == s[|s| - |r|..]
    ensures forall i :: 0 <= i < |s| - |r| ==> cut(s[i])
    ensures |r| > 0 ==> !cut(r[0])
  {
    if |s| > 0 && cut(s[0]) then
      var r := TrimLeft(s[1..], cut);
      assert forall i :: 1 <= i < |s| - |r| ==> s[i] == s[1..][i - 1];
      r
    else s
  }

  /** Drops the trailing characters that cut accepts. */
  function TrimRight(s: string, cut: char -> bool): (r: string)
    ensures r <= s
    ensures forall i :: |r| <= i < |s| ==> cut(s[i])
    ensures |r| > 0 ==> !cut(r[|r| - 1])
  {
    if |s| > 0 && cut(s[|s| - 1]) then TrimRight(s[..|s| - 1], cut) else s
  }

  /** strings.TrimSpace. */
  function TrimSpace(s: string): string
  {
    TrimRight(TrimLeft(s, IsSpace), IsSpace)
  }

  predicate IsQuote(c: char) { c == '\'' }

  /** strings.Trim(s, "'"). */
  function TrimQuotes(s: string): string
  {
    TrimRight(TrimLeft(s, IsQuote), IsQuote)
  }

  /** Trimming twice trims nothing more. */
  lemma {:induction false} TrimIdempotent(s: string, cut: char -> bool)
    ensures var r := TrimRight(TrimLeft(s, cut), cut);
      TrimRight(TrimLeft(r, cut), cut) == r
  {
    var l := TrimLeft(s, cut);
    var r := TrimRight(l, cut);
    if |r| > 0 {
      assert r[0] == l[0];
    }
    assert TrimLeft(r, cut) == r;
    assert TrimRight(r, cut) == r;
  }

  /** No character of w is accepted by sp. */
  predicate NoneIn(w: string, sp: char -> bool)
  {
    forall j :: 0 <= j < |w| ==> !sp(w[j])
  }

  /** The longest prefix of s without a separator character. */
  function WordBy(s: string, sp: char -> bool): (w: string)
    ensures w <= s && NoneIn(w, sp)
    ensures |w| < |s| ==> sp(s[|w|])
    ensures |s| > 0 && !sp(s[0]) ==> |w| > 0
  {
    if |s| == 0 || sp(s[0]) then [] else [s[0]] + WordBy(s[1..], sp)
  }

  /** The maximal runs of characters sp rejects. */
  function FieldsBy(s: string, sp: char -> bool): (fs: seq<string>)
    ensures forall f :: f in fs ==> |f| > 0 && NoneIn(f, sp)
    decreases |s|
  {
    var t := TrimLeft(s, sp);
    if |t| == 0 then []
    else
      var w := WordBy(t, sp);
      [w] + FieldsBy(t[|w|..], sp)
  }

  /** strings.Fields: the maximal runs of non-space characters. */
  function Fields(s: string): (fs: seq<string>)
    ensures forall f :: f in fs ==> |f| > 0 && NoneIn(f, IsSpace)
  {
    FieldsBy(s, IsSpace)
  }

  /** A string of spaces only has no fields. */
  lemma BlankHasNoFields(s: string)
    requires forall i :: 0 <= i < |s| ==> IsSpace(s[i])
    ensures Fields(s) == []
  {
  }

  /** The word at the head of w + rest is w when rest is empty or starts with a separator. */
  lemma {:induction false} WordOf(w: string, rest: string, sp: char -> bool)
    requires NoneIn(w, sp)
    requires |rest| == 0 || sp(rest[0])
    ensures WordBy(w + rest, sp) == w
  {
    if |w| > 0 {
      assert (w + rest)[1..] == w[1..] + rest;
      WordOf(w[1..], rest, sp);
    }
  }

  /** A word followed by nothing or by a separator is the first field. */
  lemma FieldsByCons(w: string, tail: string, sp: char -> bool)
    requires |w| > 0 && NoneIn(w, sp)
    requires |tail| == 0 || sp(tail[0])
    ensures FieldsBy(w + tail, sp) == [w] + FieldsBy(tail, sp)
  {
    var s := w + tail;
    assert !sp(s[0]);
    assert TrimLeft(s, sp) == s;
    WordOf(w, tail, sp);
    assert s[|w|..] == tail;
  }

  /** A leading separator does not change the fields. */
  lemma FieldsBySkip(c: char, rest: string, sp: char -> bool)
    requires sp(c)
    ensures FieldsBy([c] + rest, sp) == FieldsBy(rest, sp)
  {
    assert ([c] + rest)[1..] == rest;
    assert TrimLeft([c] + rest, sp) == TrimLeft(rest, sp);
  }

  /** A word, a separator, then the rest: the word is the first field and the rest gives the others. */
  lemma FieldsByJoinStep(w: string, rest: string, sp: char -> bool, sep: char)
    requires sp(sep) && |w| > 0 && NoneIn(w, sp)
    ensures FieldsBy(w + [sep] + rest, sp) == [w] + FieldsBy(rest, sp)
  {
    assert w + [sep] + rest == w + ([sep] + rest);
    FieldsByCons(w, [sep] + rest, sp);
    FieldsBySkip(sep, rest, sp);
  }

  /** Every word is non-empty and free of separators. */
  predicate Words(ws: seq<string>, sp: char -> bool)
  {
    forall k :: 0 <= k < |ws| ==> |ws[k]| > 0 && NoneIn(ws[k], sp)
  }

  /** Non-empty words without separators joined by one separator split back into those words. */
  lemma {:induction false} FieldsByJoin(ws: seq<string>, sp: char -> bool, sep: char)
    requires sp(sep) && |ws| >= 1 && Words(ws, sp)
    ensures FieldsBy(Join(ws, sep), sp) == ws
  {
    WordsHead(ws, sp);
    if |ws| == 1 {
      FieldsByOne(ws[0], sp);
      assert ws == [ws[0]];
    } else {
      FieldsByJoin(ws[1..], sp, sep);
      FieldsByJoinCons(ws[0], ws[1..], sp, sep);
      assert ws == [ws[0]] + ws[1..];
    }
  }

  /** The first word is a word, and so are the others. */
  lemma WordsHead(ws: seq<string>, sp: char -> bool)
    requires |ws| >= 1 && Words(ws, sp)
    ensures |ws[0]| > 0 && NoneIn(ws[0], sp) && Words(ws[1..], sp)
  {
    var tail := ws[1..];
    forall k | 0 <= k < |tail|
      ensures |tail[k]| > 0 && NoneIn(tail[k], sp)
    {
      assert tail[k] == ws[k + 1];
    }
  }

  /** A single word is its only field. */
  lemma FieldsByOne(w: string, sp: char -> bool)
    requires |w| > 0 && NoneIn(w, sp)
    ensures FieldsBy(w, sp) == [w]
  {
    FieldsByCons(w, [], sp);
    assert w + [] == w;
  }

  /** One more word in front of a list that splits back correctly. */
  lemma FieldsByJoinCons(w: string, tail: seq<string>, sp: char -> bool, sep: char)
    requires sp(sep) && |w| > 0 && NoneIn(w, sp) && |tail| >= 1
    requires FieldsBy(Join(tail, sep), sp) == tail
    ensures FieldsBy(Join([w] + tail, sep), sp) == [w] + tail
  {
    assert ([w] + tail)[1..] == tail;
    FieldsByJoinStep(w, Join(tail, sep), sp, sep);
  }

  /** Non-empty words without spaces joined by single spaces split back into those words. */
  lemma FieldsJoin(ws: seq<string>)
    requires |ws| >= 1
    requires forall f :: f in ws ==> |f| > 0 && NoneIn(f, IsSpace)
    ensures Fields(Join(ws, ' ')) == ws
  {
    assert Words(ws, IsSpace) by {
      forall k | 0 <= k < |ws|
        ensures |ws[k]| > 0 && NoneIn(ws[k], IsSpace)
      {
        assert ws[k] in ws;
      }
    }
    FieldsByJoin(ws, IsSpace, ' ');
  }

  predicate IsDigit(c: char) { '0' as int <= c as int <= '9' as int }

  predicate AllDigits(d: string)
  {
    |d| > 0 && forall i :: 0 <= i < |d| ==> IsDigit(d[i])
  }

  /** The decimal value of a digit string. */
  function DigitsValue(d: string): (v: int)
    requires forall i :: 0 <= i < |d| ==> IsDigit(d[i])
    ensures v >= 0
  {
    if |d| == 0 then 0
    else
      var c := d[|d| - 1];
      assert IsDigit(c);
      10 * DigitsValue(d[..|d| - 1]) + (c as int - '0' as int)
  }

  /** The digits after an optional leading sign. */
  function Unsigned(s: string): string
  {
    if |s| > 0 && (s[0] == '+' || s[0] == '-') then s[1..] else s
  }

  const Int64Min: int := -0x8000_0000_0000_0000
  const Int64Max: int := 0x7FFF_FFFF_FFFF_FFFF

  /** strconv.Atoi on a 64-bit platform: an optional sign, one or more decimal digits, a value that fits int64. */
  function Atoi(s: string): (r: Option<int>)
    ensures r.Some? ==> Int64Min <= r.value <= Int64Max
    ensures r.Some? ==> AllDigits(Unsigned(s))
  {
    var d := Unsigned(s);
    if !AllDigits(d) then None
    else
      var v: int := if s[0] == '-' then -DigitsValue(d) else DigitsValue(d);
      if Int64Min <= v <= Int64Max then Some(v) else None
  }

  /** isNumber of the isa package (not part of this model): taken to accept exactly what Atoi parses syntactically. */
  predicate IsNumber(s: string)
  {
    AllDigits(Unsigned(s))
  }

  /** A number that passes IsNumber fails to parse only when it does not fit int64. */
  lemma AtoiOfNumber(s: string)
    requires IsNumber(s)
    ensures Atoi(s).None? <==> !(Int64Min <= (if s[0] == '-' then -DigitsValue(Unsigned(s)) else DigitsValue(Unsigned(s))) <= Int64Max)
  {
  }

  /** The decimal digits of n, most significant first. */
  function NatToString(n: nat): (s: string)
    ensures AllDigits(s)
    ensures s[0] != '0' || n == 0
  {
    var digit := ('0' as int + n % 10) as char;
    if n < 10 then [digit] else NatToString(n / 10) + [digit]
  }

  /** strconv.Itoa. */
  function Itoa(n: int): string
  {
    if n < 0 then "-" + NatToString(-n) else NatToString(n)
  }

  lemma {:induction false} DigitsOfNatToString(n: nat)
    ensures DigitsValue(NatToString(n)) == n
  {
    var s := NatToString(n);
    if n >= 10 {
      DigitsOfNatToString(n / 10);
      assert s[..|s| - 1] == NatToString(n / 10);
    }
  }

  /** Atoi reads back what Itoa writes, for every int64 value. */
  lemma AtoiItoa(n: int)
    requires Int64Min <= n <= Int64Max
    ensures Atoi(Itoa(n)) == Some(n)
  {
    var s := Itoa(n);
    if n < 0 {
      var d := NatToString(-n);
      DigitsOfNatToString(-n);
      assert s == "-" + d && s[0] == '-';
      assert Unsigned(s) == d by { assert s[1..] == d; }
    } else {
      var d := NatToString(n);
      DigitsOfNatToString(n);
      assert s == d && IsDigit(s[0]);
      assert Unsigned(s) == d;
    }
  }
}
