/**
  The profile normalisers of `domain/profile.ts`, on JavaScript strings: sequences of UTF-16 code units,
  lone surrogates included.
 */
module Profile {
  import opened Prelude
  import Text

  type Unit = u: int | 0 <= u < 0x10000

  const LINE_FEED := 0x0A
  const CARRIAGE_RETURN := 0x0D
  const DELETE := 0x7F
  const FIRST_PRINTABLE := 0x20
  const DISPLAY_NAME_MAX := 50
  const BIO_MAX := 160

  // ----- Code points ------------------------------------------------------------------------------

  predicate IsHigh(u: int) {
    0xD800 <= u < 0xDC00
  }

  predicate IsLow(u: int) {
    0xDC00 <= u < 0xE000
  }

  /** String iteration: a surrogate pair is one code point, any other unit is one by itself. */
  function CodePoints(s: seq<Unit>): seq<int> {
    if s == [] then []
    else if |s| > 1 && IsHigh(s[0]) && IsLow(s[1]) then
      [0x10000 + (s[0] - 0xD800) * 0x400 + (s[1] - 0xDC00)] + CodePoints(s[2..])
    else [s[0]] + CodePoints(s[1..])
  }

  function CountCharacters(s: seq<Unit>): nat {
    |CodePoints(s)|
  }

  type CodePoint = c: int | 0 <= c < 0x110000

  function UnitsOf(c: CodePoint): seq<Unit> {
    if c < 0x10000 then [c] else [0xD800 + (c - 0x10000) / 0x400, 0xDC00 + (c - 0x10000) % 0x400]
  }

  function Encode(points: seq<CodePoint>): seq<Unit> {
    if points == [] then [] else UnitsOf(points[0]) + Encode(points[1..])
  }

  predicate IsSurrogate(u: int) {
    IsHigh(u) || IsLow(u)
  }

  /** Text written as code points counts as many characters as it has code points, emoji included. */
  lemma {:induction false} CountsCodePoints(points: seq<CodePoint>)
    requires forall i :: 0 <= i < |points| ==> !IsSurrogate(points[i])
    ensures CodePoints(Encode(points)) == points
  {
    if points != [] {
      CountsCodePoints(points[1..]);
      var rest := Encode(points[1..]);
      assert points == [points[0]] + points[1..];
      if points[0] < 0x10000 {
        assert Encode(points)[1..] == rest;
      } else {
        assert Encode(points)[2..] == rest;
      }
    }
  }

  /** The code points of a text that holds no lone surrogate. */
  function PointsOf(s: string): seq<CodePoint> {
    seq(|s|, i requires 0 <= i < |s| => s[i] as int)
  }

  /** `String.length` is the number of code units. */
  lemma {:induction false} LengthIsUnits(s: string)
    ensures Text.UnitLength(s) == |Encode(PointsOf(s))|
  {
    if s != "" {
      var init, last := s[..|s| - 1], s[|s| - 1] as int;
      LengthIsUnits(init);
      assert PointsOf(s) == PointsOf(init) + [last];
      EncodeAppends(PointsOf(init), last);
    }
  }

  lemma {:induction false} EncodeAppends(points: seq<CodePoint>, c: CodePoint)
    ensures Encode(points + [c]) == Encode(points) + UnitsOf(c)
  {
    if points != [] {
      EncodeAppends(points[1..], c);
      assert (points + [c])[1..] == points[1..] + [c];
    }
  }

  /** A test that is false of surrogates and beyond U+FFFF finds the same by units as by code points. */
  lemma {:induction false} UnitScanAgrees(s: seq<Unit>, test: int -> bool)
    requires forall c :: IsSurrogate(c) || c >= 0x10000 ==> !test(c)
    ensures (exists i :: 0 <= i < |s| && test(s[i]))
       <==> (exists i :: 0 <= i < |CodePoints(s)| && test(CodePoints(s)[i]))
  {
    if s != [] {
      var n := if |s| > 1 && IsHigh(s[0]) && IsLow(s[1]) then 2 else 1;
      UnitScanAgrees(s[n..], test);
      var points := CodePoints(s);
      assert points[1..] == CodePoints(s[n..]);
      if i :| 0 <= i < |s| && test(s[i]) {
        if i >= n {
          assert test(s[n..][i - n]);
          var j :| 0 <= j < |points[1..]| && test(points[1..][j]);
          assert test(points[j + 1]);
        } else {
          assert points[0] == s[0];
        }
      }
      if j :| 0 <= j < |points| && test(points[j]) {
        if j > 0 {
          assert test(points[1..][j - 1]);
          var i :| 0 <= i < |s[n..]| && test(s[n..][i]);
          assert test(s[n + i]);
        } else {
          assert points[0] == s[0];
        }
      }
    }
  }

  // ----- Forbidden characters ---------------------------------------------------------------------

  predicate IsControl(code: int, allowNewline: bool) {
    !(allowNewline && code == LINE_FEED) && (code < FIRST_PRINTABLE || code == DELETE)
  }

  /** The scan over code points. */
  predicate HasControl(points: seq<int>, allowNewline: bool) {
    points != [] && (IsControl(points[0], allowNewline) || HasControl(points[1..], allowNewline))
  }

  predicate IsInvisible(u: int) {
    0x200B <= u <= 0x200F || 0x202A <= u <= 0x202E || 0x2060 <= u <= 0x2064 || 0x2066 <= u <= 0x2069 || u == 0xFEFF
  }

  /** Zero-width characters and marks, embeddings and overrides, joiners and operators, isolates, the byte order mark. */
  const INVISIBLES: set<int> :=
    {0x200B, 0x200C, 0x200D, 0x200E, 0x200F} + {0x202A, 0x202B, 0x202C, 0x202D, 0x202E}
    + {0x2060, 0x2061, 0x2062, 0x2063, 0x2064} + {0x2066, 0x2067, 0x2068, 0x2069} + {0xFEFF}

  lemma InvisiblesAre(u: int)
    ensures IsInvisible(u) <==> u in INVISIBLES
  {
  }

  /** A regular expression without the `u` flag tests code units. */
  predicate HasInvisible(s: seq<Unit>) {
    exists i :: 0 <= i < |s| && IsInvisible(s[i])
  }

  lemma {:induction false} ControlScanFinds(points: seq<int>, allowNewline: bool)
    ensures HasControl(points, allowNewline) <==> exists i :: 0 <= i < |points| && IsControl(points[i], allowNewline)
  {
    if points != [] {
      ControlScanFinds(points[1..], allowNewline);
      if i :| 0 <= i < |points| && IsControl(points[i], allowNewline) {
        if i > 0 {
          assert points[1..][i - 1] == points[i];
        }
      }
      if HasControl(points[1..], allowNewline) {
        var i :| 0 <= i < |points[1..]| && IsControl(points[1..][i], allowNewline);
        assert points[i + 1] == points[1..][i];
      }
    }
  }

  /** Scanning code points for controls finds exactly the control units. */
  lemma ControlsAreUnits(s: seq<Unit>, allowNewline: bool)
    ensures HasControl(CodePoints(s), allowNewline) <==> exists i :: 0 <= i < |s| && IsControl(s[i], allowNewline)
  {
    var test := c => c >= 0 && IsControl(c, allowNewline);
    UnitScanAgrees(s, test);
    ControlScanFinds(CodePoints(s), allowNewline);
    PointsArePositive(s);
    assert (exists i :: 0 <= i < |s| && IsControl(s[i], allowNewline)) <==> exists i :: 0 <= i < |s| && test(s[i]);
  }

  lemma {:induction false} PointsArePositive(s: seq<Unit>)
    ensures forall i :: 0 <= i < |CodePoints(s)| ==> CodePoints(s)[i] >= 0
  {
    if s != [] {
      PointsArePositive(s[1..]);
      if |s| > 1 {
        PointsArePositive(s[2..]);
      }
    }
  }

  /** The unit scan for invisible characters misses none that a code-point scan would find. */
  lemma InvisiblesAreUnits(s: seq<Unit>)
    ensures HasInvisible(s) <==> exists i :: 0 <= i < |CodePoints(s)| && IsInvisible(CodePoints(s)[i])
  {
    UnitScanAgrees(s, IsInvisible);
  }

  // ----- Line endings -----------------------------------------------------------------------------

  predicate CrLfAt(s: seq<Unit>, i: nat) {
    i + 1 < |s| && s[i] == CARRIAGE_RETURN && s[i + 1] == LINE_FEED
  }

  ghost predicate HasCrLf(s: seq<Unit>) {
    exists i: nat :: CrLfAt(s, i)
  }

  lemma HasCrLfTail(s: seq<Unit>, n: nat)
    requires n <= |s| && forall i: nat :: i < n ==> !CrLfAt(s, i)
    ensures HasCrLf(s) <==> HasCrLf(s[n..])
  {
    if i: nat :| CrLfAt(s, i) {
      assert CrLfAt(s[n..], i - n);
    }
    if i: nat :| CrLfAt(s[n..], i) {
      assert CrLfAt(s, i + n);
    }
  }

  /** Every CR LF becomes LF, left to right. */
  function FoldLineEndings(s: seq<Unit>): seq<Unit> {
    if s == [] then []
    else if CrLfAt(s, 0) then [LINE_FEED] + FoldLineEndings(s[2..])
    else [s[0]] + FoldLineEndings(s[1..])
  }

  lemma {:induction false} FoldShrinks(s: seq<Unit>)
    ensures |FoldLineEndings(s)| <= |s|
    ensures |FoldLineEndings(s)| == |s| ==> FoldLineEndings(s) == s && !HasCrLf(s)
  {
    if s != [] {
      if CrLfAt(s, 0) {
        FoldShrinks(s[2..]);
      } else {
        FoldShrinks(s[1..]);
        if |FoldLineEndings(s)| == |s| {
          assert s == [s[0]] + s[1..];
          HasCrLfTail(s, 1);
        }
      }
    }
  }

  /** Folding changes nothing exactly when there is no CR LF. */
  lemma {:induction false} FoldFixes(s: seq<Unit>)
    ensures FoldLineEndings(s) == s <==> !HasCrLf(s)
  {
    FoldShrinks(s);
    if s != [] && !HasCrLf(s) {
      assert !CrLfAt(s, 0);
      HasCrLfTail(s, 1);
      FoldFixes(s[1..]);
    }
  }

  predicate CrCrLfAt(s: seq<Unit>, i: nat) {
    CrLfAt(s, i + 1) && s[i] == CARRIAGE_RETURN
  }

  ghost predicate HasCrCrLf(s: seq<Unit>) {
    exists i: nat :: CrCrLfAt(s, i)
  }

  lemma HasCrCrLfTail(s: seq<Unit>, n: nat)
    requires n <= |s| && forall i: nat :: i < n ==> !CrCrLfAt(s, i)
    ensures HasCrCrLf(s) <==> HasCrCrLf(s[n..])
  {
    if i: nat :| CrCrLfAt(s, i) {
      assert CrCrLfAt(s[n..], i - n);
    }
    if i: nat :| CrCrLfAt(s[n..], i) {
      assert CrCrLfAt(s, i + n);
    }
  }

  /** A CR LF is left over exactly where a CR stood before a CR LF. */
  lemma {:induction false} FoldLeavesCrLf(s: seq<Unit>)
    ensures HasCrLf(FoldLineEndings(s)) <==> HasCrCrLf(s)
  {
    if s == [] {
    } else if CrLfAt(s, 0) {
      var folded := FoldLineEndings(s);
      FoldLeavesCrLf(s[2..]);
      assert folded[1..] == FoldLineEndings(s[2..]);
      HasCrLfTail(folded, 1);
      HasCrCrLfTail(s, 2);
    } else {
      var folded := FoldLineEndings(s);
      FoldLeavesCrLf(s[1..]);
      assert folded[1..] == FoldLineEndings(s[1..]);
      if CrCrLfAt(s, 0) {
        assert CrLfAt(s[1..], 0);
        assert CrLfAt(folded, 0);
      } else {
        assert |s| > 1 ==> CrLfAt(s[1..], 0) == CrLfAt(s, 1);
        assert !CrLfAt(folded, 0);
        HasCrLfTail(folded, 1);
        HasCrCrLfTail(s, 1);
      }
    }
  }

  /** Folding twice is folding once exactly for texts without CR CR LF. */
  lemma FoldIdempotentExactlyWhen(s: seq<Unit>)
    ensures FoldLineEndings(FoldLineEndings(s)) == FoldLineEndings(s) <==> !HasCrCrLf(s)
  {
    FoldFixes(FoldLineEndings(s));
    FoldLeavesCrLf(s);
  }

  /** So it is not idempotent: CR CR LF folds to CR LF, which folds to LF. */
  lemma FoldIsNotIdempotent()
    ensures var s: seq<Unit> := [CARRIAGE_RETURN, CARRIAGE_RETURN, LINE_FEED];
            FoldLineEndings(s) == [CARRIAGE_RETURN, LINE_FEED] && FoldLineEndings(FoldLineEndings(s)) == [LINE_FEED]
  {
    var s: seq<Unit> := [CARRIAGE_RETURN, CARRIAGE_RETURN, LINE_FEED];
    var tail: seq<Unit> := [CARRIAGE_RETURN, LINE_FEED];
    assert s[1..] == tail && tail[2..] == [];
    assert FoldLineEndings(tail) == [LINE_FEED];
  }

  // ----- The normalisers --------------------------------------------------------------------------

  datatype Refusal = Empty | ControlCharacters | InvisibleCharacters | TooLong

  predicate IsBlank(u: Unit) {
    Text.IsBlankCode(u)
  }

  function NormalizeDisplayName(displayName: seq<Unit>): Result<seq<Unit>, Refusal> {
    var trimmed := Text.Trim(displayName, IsBlank);
    if trimmed == [] then Err(Empty)
    else if HasControl(CodePoints(trimmed), false) then Err(ControlCharacters)
    else if HasInvisible(trimmed) then Err(InvisibleCharacters)
    else if CountCharacters(trimmed) > DISPLAY_NAME_MAX then Err(TooLong)
    else Ok(trimmed)
  }

  function NormalizeBio(bio: seq<Unit>): Result<seq<Unit>, Refusal> {
    var trimmed := Text.Trim(FoldLineEndings(bio), IsBlank);
    if HasControl(CodePoints(trimmed), true) then Err(ControlCharacters)
    else if CountCharacters(trimmed) > BIO_MAX then Err(TooLong)
    else Ok(trimmed)
  }

  predicate IsTrimmed(s: seq<Unit>) {
    s == [] || (!IsBlank(s[0]) && !IsBlank(s[|s| - 1]))
  }

  /** A name fit to store: visible ends, printable single-line units, at most fifty characters. */
  predicate IsStoredName(s: seq<Unit>) {
    && s != [] && IsTrimmed(s) && |CodePoints(s)| <= 50
    && forall i :: 0 <= i < |s| ==> s[i] >= 32 && s[i] != 127 && !IsInvisible(s[i])
  }

  /** A bio fit to store; line feeds are its only control characters. */
  predicate IsStoredBio(s: seq<Unit>) {
    && IsTrimmed(s) && |CodePoints(s)| <= 160
    && forall i :: 0 <= i < |s| ==> s[i] == 10 || (s[i] >= 32 && s[i] != 127)
  }

  /** The accepted names are exactly the storable ones once trimmed, and trimming is all that happens to them. */
  lemma NameIsAcceptedExactlyWhen(s: seq<Unit>)
    ensures NormalizeDisplayName(s).Ok? <==> IsStoredName(Text.Trim(s, IsBlank))
    ensures NormalizeDisplayName(s).Ok? ==> NormalizeDisplayName(s).value == Text.Trim(s, IsBlank)
    ensures NormalizeDisplayName(s) == Err(Empty) <==> Text.AllBlank(s, IsBlank)
  {
    var trimmed := Text.Trim(s, IsBlank);
    Text.TrimmedAway(s, IsBlank);
    ControlsAreUnits(trimmed, false);
  }

  /** The first refusal that applies is the one given. */
  lemma NameRefusals(s: seq<Unit>)
    ensures var (trimmed, answer) := (Text.Trim(s, IsBlank), NormalizeDisplayName(s));
            var controls := exists i :: 0 <= i < |trimmed| && (trimmed[i] < 32 || trimmed[i] == 127);
            var invisibles := exists i :: 0 <= i < |trimmed| && IsInvisible(trimmed[i]);
            && (answer == Err(ControlCharacters) <==> controls)
            && (answer == Err(InvisibleCharacters) <==> !controls && invisibles)
            && (answer == Err(TooLong) <==> !controls && !invisibles && |CodePoints(trimmed)| > 50)
  {
    ControlsAreUnits(Text.Trim(s, IsBlank), false);
  }

  /** A stored name normalises to itself; so normalising twice is normalising once. */
  lemma NameNormalisesOnce(s: seq<Unit>)
    ensures NormalizeDisplayName(s).Ok? ==>
              var name := NormalizeDisplayName(s).value;
              IsStoredName(name) && NormalizeDisplayName(name) == Ok(name)
  {
    NameIsAcceptedExactlyWhen(s);
    if NormalizeDisplayName(s).Ok? {
      Text.TrimmedStays(s, IsBlank);
    }
  }

  lemma BioIsAcceptedExactlyWhen(s: seq<Unit>)
    ensures NormalizeBio(s).Ok? <==> IsStoredBio(Text.Trim(FoldLineEndings(s), IsBlank))
    ensures NormalizeBio(s).Ok? ==> NormalizeBio(s).value == Text.Trim(FoldLineEndings(s), IsBlank)
  {
    var trimmed := Text.Trim(FoldLineEndings(s), IsBlank);
    ControlsAreUnits(trimmed, true);
  }

  lemma BioRefusals(s: seq<Unit>)
    ensures var (trimmed, answer) := (Text.Trim(FoldLineEndings(s), IsBlank), NormalizeBio(s));
            var controls := exists i :: 0 <= i < |trimmed| && trimmed[i] != 10 && (trimmed[i] < 32 || trimmed[i] == 127);
            && (answer == Err(ControlCharacters) <==> controls)
            && (answer == Err(TooLong) <==> !controls && |CodePoints(trimmed)| > 160)
            && answer != Err(Empty) && answer != Err(InvisibleCharacters)
  {
    ControlsAreUnits(Text.Trim(FoldLineEndings(s), IsBlank), true);
  }

  /** A stored bio holds no carriage return, so even folding leaves it alone. */
  lemma BioNormalisesOnce(s: seq<Unit>)
    ensures NormalizeBio(s).Ok? ==>
              var bio := NormalizeBio(s).value;
              IsStoredBio(bio) && NormalizeBio(bio) == Ok(bio)
  {
    BioIsAcceptedExactlyWhen(s);
    if NormalizeBio(s).Ok? {
      var bio := NormalizeBio(s).value;
      assert forall i: nat :: !CrLfAt(bio, i);
      FoldFixes(bio);
      Text.TrimmedStays(FoldLineEndings(s), IsBlank);
      BioIsAcceptedExactlyWhen(bio);
    }
  }

  /** A bio whose line ends are all CR LF is accepted like the same bio written with LF. */
  lemma CrLfBioIsItsFoldedBio(s: seq<Unit>)
    requires !HasCrCrLf(s)
    ensures NormalizeBio(s) == NormalizeBio(FoldLineEndings(s))
  {
    FoldIdempotentExactlyWhen(s);
  }
}
