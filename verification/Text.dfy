/** The string operations the services lean on: splitting at a separator and trimming. */
module Text {

  /** Every maximal piece between occurrences of `separator`, found left to right. */
  function Split(s: string, separator: string): (parts: seq<string>)
    requires separator != ""
    ensures parts != []
  {
    if |s| < |separator| then [s]
    else if s[..|separator|] == separator then [""] + Split(s[|separator|..], separator)
    else
      var rest := Split(s[1..], separator);
      [[s[0]] + rest[0]] + rest[1..]
  }

  function Join(parts: seq<string>, separator: string): string
    requires parts != []
  {
    if |parts| == 1 then parts[0] else parts[0] + separator + Join(parts[1..], separator)
  }

  lemma Regroup(c: char, piece: string, separator: string, rest: string)
    ensures ([c] + piece) + separator + rest == [c] + (piece + separator + rest)
  {
  }

  /** Splitting loses nothing. */
  lemma {:induction false} JoinSplit(s: string, separator: string)
    requires separator != ""
    ensures Join(Split(s, separator), separator) == s
  {
    if |s| < |separator| {
    } else if s[..|separator|] == separator {
      var rest := Split(s[|separator|..], separator);
      JoinSplit(s[|separator|..], separator);
      assert ([""] + rest)[1..] == rest;
    } else {
      var rest := Split(s[1..], separator);
      JoinSplit(s[1..], separator);
      var parts := [[s[0]] + rest[0]] + rest[1..];
      assert parts[1..] == rest[1..];
      if |rest| > 1 {
        Regroup(s[0], rest[0], separator, Join(rest[1..], separator));
      }
      assert [s[0]] + s[1..] == s;
    }
  }

  lemma {:induction false} JoinOneMore(parts: seq<string>, last: string, separator: string)
    requires parts != []
    ensures Join(parts + [last], separator) == Join(parts, separator) + separator + last
  {
    assert (parts + [last])[1..] == parts[1..] + [last];
    if |parts| > 1 {
      JoinOneMore(parts[1..], last, separator);
      Grouped(parts[0], separator, Join(parts[1..], separator), separator, last);
    }
  }

  lemma Grouped(a: string, b: string, c: string, d: string, e: string)
    ensures a + b + (c + d + e) == (a + b + c) + d + e
  {
  }

  /** A piece without the separator comes off the front whole. */
  lemma {:induction false} SplitFirst(piece: string, c: char, rest: string)
    requires c !in piece
    ensures Split(piece + [c] + rest, [c]) == [piece] + Split(rest, [c])
  {
    var s := piece + [c] + rest;
    if piece == "" {
      assert s[..1] == [c] && s[1..] == rest;
    } else {
      assert s[..1] == [s[0]];
      assert s[1..] == piece[1..] + [c] + rest;
      SplitFirst(piece[1..], c, rest);
      assert [s[0]] + piece[1..] == piece;
    }
  }

  lemma {:induction false} SplitNothing(s: string, c: char)
    requires c !in s
    ensures Split(s, [c]) == [s]
  {
    if s != "" {
      assert s[..1] == [s[0]];
      SplitNothing(s[1..], c);
      assert [s[0]] + s[1..] == s;
    }
  }

  lemma {:induction false} PartsHaveNoSeparator(s: string, c: char)
    ensures forall part :: part in Split(s, [c]) ==> c !in part
  {
    if s == "" {
    } else {
      PartsHaveNoSeparator(s[1..], c);
      var rest := Split(s[1..], [c]);
      assert s[..1] == [s[0]];
      if s[0] != c {
        assert rest[0] in rest;
      }
    }
  }

  predicate ContainsAt(s: string, separator: string, i: nat) {
    i + |separator| <= |s| && s[i..i + |separator|] == separator
  }

  ghost predicate Contains(s: string, separator: string) {
    exists i: nat :: ContainsAt(s, separator, i)
  }

  lemma ContainsShift(s: string, from: nat, to: nat, separator: string, i: nat)
    requires from <= to <= |s| && i + |separator| <= to - from
    ensures ContainsAt(s[from..to], separator, i) <==> ContainsAt(s, separator, from + i)
  {
    var cut, direct := s[from..to][i..i + |separator|], s[from + i..from + i + |separator|];
    assert |cut| == |direct|;
    assert forall j :: 0 <= j < |cut| ==> cut[j] == direct[j];
    assert cut == direct;
  }

  lemma {:induction false} FirstPieceIsPrefix(s: string, separator: string)
    requires separator != ""
    ensures Split(s, separator)[0] <= s
  {
    if |s| >= |separator| && s[..|separator|] != separator {
      FirstPieceIsPrefix(s[1..], separator);
    }
  }

  lemma {:induction false} FirstPieceLacksSeparator(s: string, separator: string, i: nat)
    requires separator != ""
    ensures !ContainsAt(Split(s, separator)[0], separator, i)
  {
    if |s| >= |separator| && s[..|separator|] != separator {
      var piece, tail := Split(s, separator)[0], Split(s[1..], separator)[0];
      assert piece == [s[0]] + tail;
      if i > 0 {
        FirstPieceLacksSeparator(s[1..], separator, i - 1);
        NotInTail(s[0], tail, separator, i);
      } else if |separator| <= |piece| {
        FirstPieceIsPrefix(s, separator);
        assert piece[0..|separator|] == s[..|separator|];
      }
    }
  }

  lemma NotInTail(c: char, tail: string, separator: string, i: nat)
    requires i > 0 && !ContainsAt(tail, separator, i - 1)
    ensures !ContainsAt([c] + tail, separator, i)
  {
    var piece := [c] + tail;
    if i + |separator| <= |piece| {
      ContainsShift(piece, 1, |piece|, separator, i - 1);
      assert piece[1..|piece|] == tail;
    }
  }

  /** No piece holds a separator: every one of them was found. */
  lemma {:induction false} PiecesLackSeparator(s: string, separator: string)
    requires separator != ""
    ensures forall part :: part in Split(s, separator) ==> !Contains(part, separator)
  {
    forall i: nat ensures !ContainsAt(Split(s, separator)[0], separator, i) {
      FirstPieceLacksSeparator(s, separator, i);
    }
    if |s| >= |separator| {
      PiecesLackSeparator(if s[..|separator|] == separator then s[|separator|..] else s[1..], separator);
    }
  }

  /** No end of the separator is also a beginning of it, so two occurrences never overlap. */
  ghost predicate Borderless(separator: string) {
    separator != "" && forall d :: 0 < d < |separator| ==> separator[d..] != separator[..|separator| - d]
  }

  lemma Overlapping(piece: string, separator: string, rest: string)
    requires separator <= piece + separator + rest && |piece| < |separator|
    ensures separator[|piece|..] == separator[..|separator| - |piece|]
  {
    var s := piece + separator + rest;
    assert separator[|piece|..] == s[|piece|..|separator|] == separator[..|separator| - |piece|];
  }

  lemma StartsThePiece(piece: string, separator: string, rest: string)
    requires separator <= piece + separator + rest && |separator| <= |piece|
    ensures ContainsAt(piece, separator, 0)
  {
    assert piece[0..|separator|] == (piece + separator + rest)[..|separator|];
  }

  lemma NoSeparatorYet(piece: string, separator: string, rest: string)
    requires Borderless(separator) && !Contains(piece, separator) && piece != ""
    ensures !(separator <= piece + separator + rest)
  {
    if separator <= piece + separator + rest {
      if |piece| < |separator| {
        Overlapping(piece, separator, rest);
      } else {
        StartsThePiece(piece, separator, rest);
      }
    }
  }

  lemma TailLacksSeparator(piece: string, separator: string)
    requires !Contains(piece, separator) && piece != ""
    ensures !Contains(piece[1..], separator)
  {
    forall i: nat | i + |separator| <= |piece| - 1
      ensures !ContainsAt(piece[1..], separator, i)
    {
      assert piece[1..] == piece[1..|piece|];
      ContainsShift(piece, 1, |piece|, separator, i);
    }
  }

  lemma {:induction false} SplitFirstPiece(piece: string, separator: string, rest: string)
    requires Borderless(separator) && !Contains(piece, separator)
    ensures Split(piece + separator + rest, separator) == [piece] + Split(rest, separator)
  {
    var s := piece + separator + rest;
    if piece == "" {
      assert s[..|separator|] == separator && s[|separator|..] == rest;
    } else {
      NoSeparatorYet(piece, separator, rest);
      TailLacksSeparator(piece, separator);
      SplitFirstPiece(piece[1..], separator, rest);
      assert s[1..] == piece[1..] + separator + rest;
      assert [s[0]] + piece[1..] == piece;
    }
  }

  lemma {:induction false} SplitLastPiece(piece: string, separator: string)
    requires separator != "" && !Contains(piece, separator)
    ensures Split(piece, separator) == [piece]
  {
    if |piece| >= |separator| {
      assert piece[0..|separator|] == piece[..|separator|];
      assert !ContainsAt(piece, separator, 0);
      TailLacksSeparator(piece, separator);
      SplitLastPiece(piece[1..], separator);
      assert [piece[0]] + piece[1..] == piece;
    }
  }

  /** Splitting gives back what was joined. */
  lemma {:induction false} SplitJoin(parts: seq<string>, separator: string)
    requires parts != [] && Borderless(separator) && forall k :: 0 <= k < |parts| ==> !Contains(parts[k], separator)
    ensures Split(Join(parts, separator), separator) == parts
  {
    if |parts| == 1 {
      SplitLastPiece(parts[0], separator);
    } else {
      SplitJoin(parts[1..], separator);
      SplitFirstPiece(parts[0], separator, Join(parts[1..], separator));
      assert [parts[0]] + parts[1..] == parts;
    }
  }

  // ----- Trimming ---------------------------------------------------------------------------------

  /** The code units `String.prototype.trim` removes: white space and line terminators. */
  predicate IsBlankCode(u: int) {
    9 <= u <= 13 || u == 32 || u == 160 || u == 0x1680 || 0x2000 <= u <= 0x200A
    || u == 0x2028 || u == 0x2029 || u == 0x202F || u == 0x205F || u == 0x3000 || u == 0xFEFF
  }

  /** White space and line terminators of ECMA-262, sections 12.2 and 12.3, one by one. */
  const BLANK_CODES: set<int> :=
    {0x09, 0x0B, 0x0C, 0x20, 0xA0, 0xFEFF} + {0x0A, 0x0D, 0x2028, 0x2029}
    + {0x1680, 0x2000, 0x2001, 0x2002, 0x2003, 0x2004, 0x2005, 0x2006, 0x2007, 0x2008, 0x2009, 0x200A, 0x202F, 0x205F, 0x3000}

  lemma BlankCodesAre(u: int)
    ensures IsBlankCode(u) <==> u in BLANK_CODES
  {
  }

  /** The first position at or after `i` that is not blank. */
  function SkipBlanks<T>(s: seq<T>, blank: T -> bool, i: nat): (from: nat)
    requires i <= |s|
    ensures i <= from <= |s| && (from < |s| ==> !blank(s[from]))
    decreases |s| - i
  {
    if i < |s| && blank(s[i]) then SkipBlanks(s, blank, i + 1) else i
  }

  /** The end of what is left of `s[from..i]` without trailing blanks. */
  function DropBlanks<T>(s: seq<T>, blank: T -> bool, from: nat, i: nat): (to: nat)
    requires from <= i <= |s|
    ensures from <= to <= i && (from < to ==> !blank(s[to - 1]))
  {
    if from < i && blank(s[i - 1]) then DropBlanks(s, blank, from, i - 1) else i
  }

  function Trim<T>(s: seq<T>, blank: T -> bool): (r: seq<T>)
    ensures r == [] || (!blank(r[0]) && !blank(r[|r| - 1]))
  {
    var from := SkipBlanks(s, blank, 0);
    s[from..DropBlanks(s, blank, from, |s|)]
  }

  ghost predicate AllBlank<T>(s: seq<T>, blank: T -> bool) {
    forall i :: 0 <= i < |s| ==> blank(s[i])
  }

  lemma {:induction false} SkippedAreBlank<T>(s: seq<T>, blank: T -> bool, i: nat)
    requires i <= |s|
    ensures AllBlank(s[i..SkipBlanks(s, blank, i)], blank)
    decreases |s| - i
  {
    if i < |s| && blank(s[i]) {
      SkippedAreBlank(s, blank, i + 1);
      var cut := s[i..SkipBlanks(s, blank, i)];
      assert cut == [s[i]] + cut[1..] && cut[1..] == s[i + 1..SkipBlanks(s, blank, i)];
    }
  }

  lemma {:induction false} DroppedAreBlank<T>(s: seq<T>, blank: T -> bool, from: nat, i: nat)
    requires from <= i <= |s|
    ensures AllBlank(s[DropBlanks(s, blank, from, i)..i], blank)
  {
    if from < i && blank(s[i - 1]) {
      DroppedAreBlank(s, blank, from, i - 1);
      var to := DropBlanks(s, blank, from, i);
      assert s[to..i] == s[to..i - 1] + [s[i - 1]];
    }
  }

  /** What trimming cuts off the front and the back. */
  function TrimmedOff<T>(s: seq<T>, blank: T -> bool): (seq<T>, seq<T>) {
    var from := SkipBlanks(s, blank, 0);
    (s[..from], s[DropBlanks(s, blank, from, |s|)..])
  }

  /** Trimming cuts blanks off both ends, and nothing else. */
  lemma TrimCutsBlanks<T>(s: seq<T>, blank: T -> bool)
    ensures s == TrimmedOff(s, blank).0 + Trim(s, blank) + TrimmedOff(s, blank).1
    ensures AllBlank(TrimmedOff(s, blank).0, blank) && AllBlank(TrimmedOff(s, blank).1, blank)
  {
    var from := SkipBlanks(s, blank, 0);
    SkippedAreBlank(s, blank, 0);
    DroppedAreBlank(s, blank, from, |s|);
    assert s[0..from] == s[..from];
    var to := DropBlanks(s, blank, from, |s|);
    assert s[to..|s|] == s[to..];
  }

  /** Nothing is left exactly when everything was blank. */
  lemma TrimmedAway<T>(s: seq<T>, blank: T -> bool)
    ensures Trim(s, blank) == [] <==> AllBlank(s, blank)
  {
    TrimCutsBlanks(s, blank);
    var from := SkipBlanks(s, blank, 0);
    if Trim(s, blank) == [] {
      assert s == TrimmedOff(s, blank).0 + TrimmedOff(s, blank).1;
    } else {
      assert !blank(s[from]);
    }
  }

  lemma {:induction false} SkipsExactly<T>(s: seq<T>, blank: T -> bool, i: nat, to: nat)
    requires i <= to < |s| && (forall k :: i <= k < to ==> blank(s[k])) && !blank(s[to])
    ensures SkipBlanks(s, blank, i) == to
    decreases |s| - i
  {
    if i < to {
      SkipsExactly(s, blank, i + 1, to);
    }
  }

  lemma {:induction false} DropsExactly<T>(s: seq<T>, blank: T -> bool, from: nat, to: nat, i: nat)
    requires from < to <= i <= |s| && (forall k :: to <= k < i ==> blank(s[k])) && !blank(s[to - 1])
    ensures DropBlanks(s, blank, from, i) == to
  {
    if to < i {
      DropsExactly(s, blank, from, to, i - 1);
    }
  }

  /** Blanks around a text that neither starts nor ends blank come off, and it stays. */
  lemma TrimsPadding<T>(before: seq<T>, s: seq<T>, after: seq<T>, blank: T -> bool)
    requires AllBlank(before, blank) && AllBlank(after, blank)
    requires s != [] && !blank(s[0]) && !blank(s[|s| - 1])
    ensures Trim(before + s + after, blank) == s
  {
    var padded := before + s + after;
    SkipsExactly(padded, blank, 0, |before|);
    DropsExactly(padded, blank, |before|, |before| + |s|, |padded|);
  }

  /** So what is left has nothing more to trim. */
  lemma TrimmedStays<T>(s: seq<T>, blank: T -> bool)
    ensures Trim(Trim(s, blank), blank) == Trim(s, blank)
  {
    var r := Trim(s, blank);
    assert r[0..|r|] == r;
  }

  /** `String.length`: a character beyond U+FFFF is two code units. */
  function UnitLength(s: string): nat {
    if s == "" then 0 else UnitLength(s[..|s| - 1]) + if s[|s| - 1] as int > 0xFFFF then 2 else 1
  }
}
