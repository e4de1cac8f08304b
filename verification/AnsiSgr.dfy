/** `strip_ansi_sgr`: one pass over the bytes of a line that deletes every
    Select Graphic Rendition sequence (ECMA-48, section 8.3.117). */
module AnsiSgr {
  import opened Bytes

  const ESC: byte := 0x1b
  const BRACKET: byte := 0x5b
  const FINAL: byte := 0x6d

  /** A digit, `;` or `:`. */
  predicate IsParameter(b: byte) {
    0x30 <= b <= 0x39 || b == 0x3b || b == 0x3a
  }

  /** `Cow<str>`: the input itself, or a new string. */
  datatype Cow = Borrowed | Owned(text: seq<byte>) {
    function Contents(line: seq<byte>): seq<byte> {
      match this
      case Borrowed => line
      case Owned(text) => text
    }
  }

  /** Past the run of parameter bytes that starts at `i`. */
  function ParametersEnd(s: seq<byte>, i: nat): (end: nat)
    requires i <= |s|
    ensures i <= end <= |s|
    ensures forall k :: i <= k < end ==> IsParameter(s[k])
    decreases |s| - i
  {
    if i < |s| && IsParameter(s[i]) then ParametersEnd(s, i + 1) else i
  }

  /** Past the SGR sequence that starts at `i`; `i` itself if none does. */
  function SgrEnd(s: seq<byte>, i: nat): (end: nat)
    requires i < |s|
    ensures i <= end <= |s|
  {
    if s[i] == ESC && i + 1 < |s| && s[i + 1] == BRACKET then
      var end := ParametersEnd(s, i + 2);
      if end < |s| && s[end] == FINAL then end + 1 else i
    else i
  }

  /** Left-to-right deletion from `i` on. */
  function StripFrom(s: seq<byte>, i: nat): seq<byte>
    requires i <= |s|
    decreases |s| - i
  {
    if i == |s| then []
    else if SgrEnd(s, i) > i then StripFrom(s, SgrEnd(s, i))
    else [s[i]] + StripFrom(s, i + 1)
  }

  function Strip(s: seq<byte>): seq<byte> {
    StripFrom(s, 0)
  }

  ghost predicate NoneStartsIn(s: seq<byte>, lo: nat, hi: nat)
    requires lo <= hi <= |s|
  {
    forall i :: lo <= i < hi ==> SgrEnd(s, i) == i
  }

  /** The output so far, with what waits to be copied. */
  ghost function Copied(output: Cow, line: seq<byte>, copied: nat, index: nat): seq<byte>
    requires copied <= index <= |line|
  {
    (if output.Owned? then output.text else []) + line[copied..index]
  }

  /** What the loop has done when it is at `index`. */
  ghost predicate Scanned(output: Cow, line: seq<byte>, copied: nat, index: nat) {
    && copied <= index <= |line|
    && (if output.Borrowed? then copied == 0 else |output.text| < copied)
    && Strip(line) == Copied(output, line, copied, index) + StripFrom(line, index)
  }

  lemma {:induction false} KeepOne(output: Cow, line: seq<byte>, copied: nat, index: nat)
    requires Scanned(output, line, copied, index) && index < |line| && SgrEnd(line, index) == index
    ensures Scanned(output, line, copied, index + 1)
  {
    assert line[copied..index + 1] == line[copied..index] + [line[index]];
    Regroup(if output.Owned? then output.text else [], line[copied..index], [line[index]], StripFrom(line, index + 1));
  }

  lemma {:induction false} DropSequence(output: Cow, line: seq<byte>, copied: nat, index: nat)
    requires Scanned(output, line, copied, index) && index < |line| && SgrEnd(line, index) > index
    ensures var next := SgrEnd(line, index);
            Scanned(Owned((if output.Owned? then output.text else []) + line[copied..index]), line, next, next)
  {
    var next, text := SgrEnd(line, index), Copied(output, line, copied, index);
    assert text + line[next..next] == text;
  }

  lemma {:induction false} ScanEnds(output: Cow, line: seq<byte>, copied: nat)
    requires Scanned(output, line, copied, |line|)
    ensures Strip(line) == if output.Owned? then output.text + line[copied..] else line
    ensures output.Borrowed? <==> NoneStartsIn(line, 0, |line|)
  {
    LengthTells(line, 0);
    NothingLeft(Copied(output, line, copied, |line|));
    assert line[copied..|line|] == line[copied..];
    if output.Borrowed? {
      assert [] + line[0..] == line;
    }
  }

  lemma {:induction false} Regroup(a: seq<byte>, b: seq<byte>, c: seq<byte>, d: seq<byte>)
    ensures (a + b) + (c + d) == (a + (b + c)) + d
  {
  }

  lemma {:induction false} NothingYet(line: seq<byte>)
    ensures Scanned(Borrowed, line, 0, 0)
  {
    assert [] + line[0..0] == [] && [] + StripFrom(line, 0) == StripFrom(line, 0);
  }

  lemma {:induction false} NothingLeft(a: seq<byte>)
    ensures a + [] == a
  {
  }

  lemma {:induction false} LengthTells(s: seq<byte>, i: nat)
    requires i <= |s|
    ensures |StripFrom(s, i)| <= |s| - i
    ensures |StripFrom(s, i)| == |s| - i <==> NoneStartsIn(s, i, |s|)
    decreases |s| - i
  {
    if i < |s| {
      LengthTells(s, if SgrEnd(s, i) > i then SgrEnd(s, i) else i + 1);
      assert NoneStartsIn(s, i, |s|) <==> SgrEnd(s, i) == i && NoneStartsIn(s, i + 1, |s|);
    }
  }

  /** The test and inner loop of `strip_ansi_sgr`: how far a sequence at `index` goes. */
  method ScanSequence(line: seq<byte>, index: nat) returns (next: nat)
    requires index < |line|
    ensures next == SgrEnd(line, index)
  {
    next := index;
    if line[index] == ESC && index + 1 < |line| && line[index + 1] == BRACKET {
      var end := index + 2;
      while end < |line| && IsParameter(line[end])
        invariant index + 2 <= end <= |line|
        invariant ParametersEnd(line, index + 2) == ParametersEnd(line, end)
      {
        end := end + 1;
      }
      if end < |line| && line[end] == FINAL {
        next := end + 1;
      }
    }
  }

  /** `strip_ansi_sgr` */
  method StripAnsiSgr(line: seq<byte>) returns (r: Cow)
    ensures r.Contents(line) == Strip(line) == OutsideFrom(line, 0)
    ensures r.Borrowed? <==> forall p: nat :: p < |line| ==> !InsideSgr(line, p)
  {
    StripKeepsOutside(line);
    NoneInsideIff(line);
    var output := Borrowed;
    var copied, index := 0, 0;
    NothingYet(line);
    while index < |line|
      invariant Scanned(output, line, copied, index)
    {
      var next := ScanSequence(line, index);
      if next > index {
        DropSequence(output, line, copied, index);
        output := Owned((if output.Owned? then output.text else []) + line[copied..index]);
        copied := next;
        index := copied;
      } else {
        KeepOne(output, line, copied, index);
        index := index + 1;
      }
    }
    ScanEnds(output, line, copied);
    match output {
      case Owned(text) => r := Owned(text + line[copied..]);
      case Borrowed => r := Borrowed;
    }
  }

  // ---- the deleted bytes are exactly those inside an SGR sequence ----

  /** Read by itself: `ESC [`, bytes from `0` to `;`, `m`. */
  ghost predicate IsSgr(s: seq<byte>, lo: nat, hi: nat)
    requires lo <= hi <= |s|
  {
    lo + 3 <= hi && s[lo] == 0x1b && s[lo + 1] == 0x5b && s[hi - 1] == 0x6d
    && forall k :: lo + 2 <= k < hi - 1 ==> 0x30 <= s[k] <= 0x3b
  }

  ghost predicate InsideSgr(s: seq<byte>, p: nat)
    requires p < |s|
  {
    exists lo: nat, hi: nat :: lo <= p < hi <= |s| && IsSgr(s, lo, hi)
  }

  /** The bytes from `i` on that lie in no SGR sequence, in order. */
  ghost function OutsideFrom(s: seq<byte>, i: nat): seq<byte>
    requires i <= |s|
    decreases |s| - i
  {
    if i == |s| then [] else (if InsideSgr(s, i) then [] else [s[i]]) + OutsideFrom(s, i + 1)
  }

  lemma {:induction false} ParametersEndIs(s: seq<byte>, i: nat, end: nat)
    requires i <= end < |s| && !IsParameter(s[end])
    requires forall k :: i <= k < end ==> IsParameter(s[k])
    ensures ParametersEnd(s, i) == end
    decreases end - i
  {
    if i < end {
      ParametersEndIs(s, i + 1, end);
    }
  }

  lemma {:induction false} SgrEndIff(s: seq<byte>, i: nat, end: nat)
    requires i < end <= |s|
    ensures SgrEnd(s, i) == end <==> IsSgr(s, i, end)
  {
    if IsSgr(s, i, end) {
      ParametersEndIs(s, i + 2, end - 1);
    }
  }

  /** SGR sequences do not overlap: one that reaches over `p` from the left ends
      any that starts at or before `p`. */
  lemma {:induction false} NoOverlap(s: seq<byte>, a: nat, b: nat, c: nat, d: nat)
    requires a <= b <= |s| && c <= d <= |s| && IsSgr(s, a, b) && IsSgr(s, c, d)
    requires a <= c < b
    ensures a == c && b == d
  {
    if a == c {
      SgrEndIff(s, a, b);
      SgrEndIff(s, c, d);
    }
  }

  lemma {:induction false} SkipInside(s: seq<byte>, lo: nat, hi: nat)
    requires lo <= hi <= |s| && forall p :: lo <= p < hi ==> InsideSgr(s, p)
    ensures OutsideFrom(s, lo) == OutsideFrom(s, hi)
    decreases hi - lo
  {
    if lo < hi {
      SkipInside(s, lo + 1, hi);
    }
  }

  /** Every sequence that starts before `i` ends at or before `i`. */
  ghost predicate Boundary(s: seq<byte>, i: nat)
    requires i <= |s|
  {
    forall lo: nat, hi: nat :: lo < i < hi <= |s| ==> !IsSgr(s, lo, hi)
  }

  lemma {:induction false} PastSequence(s: seq<byte>, i: nat, end: nat)
    requires i < |s| && Boundary(s, i) && end == SgrEnd(s, i) > i
    ensures Boundary(s, end) && OutsideFrom(s, i) == OutsideFrom(s, end)
  {
    SgrEndIff(s, i, end);
    forall p | i <= p < end ensures InsideSgr(s, p) { assert i <= p < end <= |s| && IsSgr(s, i, end); }
    SkipInside(s, i, end);
    forall lo: nat, hi: nat | lo < end < hi <= |s| ensures !IsSgr(s, lo, hi) {
      if IsSgr(s, lo, hi) && i <= lo { NoOverlap(s, i, end, lo, hi); }
    }
  }

  lemma {:induction false} PastByte(s: seq<byte>, i: nat)
    requires i < |s| && Boundary(s, i) && SgrEnd(s, i) == i
    ensures Boundary(s, i + 1) && !InsideSgr(s, i)
  {
    forall lo: nat, hi: nat | lo <= i < hi <= |s| ensures !IsSgr(s, lo, hi) {
      if IsSgr(s, lo, hi) && lo == i { SgrEndIff(s, i, hi); }
    }
  }

  lemma {:induction false} StripFromIsOutside(s: seq<byte>, i: nat)
    requires i <= |s| && Boundary(s, i)
    ensures StripFrom(s, i) == OutsideFrom(s, i)
    decreases |s| - i
  {
    if i < |s| {
      var end := SgrEnd(s, i);
      if end > i {
        PastSequence(s, i, end);
        StripFromIsOutside(s, end);
      } else {
        PastByte(s, i);
        StripFromIsOutside(s, i + 1);
      }
    }
  }

  /** The result is the line without exactly the bytes that lie in a complete SGR
      sequence; all other bytes, other controls among them, stay in order. */
  lemma {:induction false} StripKeepsOutside(s: seq<byte>)
    ensures Strip(s) == OutsideFrom(s, 0)
  {
    StripFromIsOutside(s, 0);
  }

  /** No sequence starts anywhere exactly when no byte lies in one. */
  lemma {:induction false} NoneInsideIff(s: seq<byte>)
    ensures NoneStartsIn(s, 0, |s|) <==> forall p: nat :: p < |s| ==> !InsideSgr(s, p)
  {
    forall p: nat | p < |s| && SgrEnd(s, p) > p ensures InsideSgr(s, p) {
      SgrEndIff(s, p, SgrEnd(s, p));
    }
    forall p: nat | p < |s| && InsideSgr(s, p) ensures !NoneStartsIn(s, 0, |s|) {
      var lo: nat, hi: nat :| lo <= p < hi <= |s| && IsSgr(s, lo, hi);
      SgrEndIff(s, lo, hi);
    }
  }

  // ---- UTF-8 (RFC 3629, section 4) ----

  predicate IsTail(b: byte) {
    0x80 <= b <= 0xbf
  }

  /** The length of the well-formed character at `i`, 0 if there is none. */
  function CharLength(s: seq<byte>, i: nat): (n: nat)
    requires i < |s|
    ensures i + n <= |s|
    ensures n > 1 ==> s[i] >= 0x80 && forall k :: i < k < i + n ==> s[k] >= 0x80
    ensures s[i] < 0x80 ==> n == 1
  {
    var b := s[i];
    if b <= 0x7f then 1
    else if 0xc2 <= b <= 0xdf then
      if i + 1 < |s| && IsTail(s[i + 1]) then 2 else 0
    else if 0xe0 <= b <= 0xef then
      if i + 2 < |s| && IsTail(s[i + 1]) && IsTail(s[i + 2])
         && (b == 0xe0 ==> s[i + 1] >= 0xa0) && (b == 0xed ==> s[i + 1] <= 0x9f) then 3 else 0
    else if 0xf0 <= b <= 0xf4 then
      if i + 3 < |s| && IsTail(s[i + 1]) && IsTail(s[i + 2]) && IsTail(s[i + 3])
         && (b == 0xf0 ==> s[i + 1] >= 0x90) && (b == 0xf4 ==> s[i + 1] <= 0x8f) then 4 else 0
    else 0
  }

  predicate WellFormedFrom(s: seq<byte>, i: nat)
    requires i <= |s|
    decreases |s| - i
  {
    i < |s| ==> CharLength(s, i) > 0 && WellFormedFrom(s, i + CharLength(s, i))
  }

  predicate WellFormed(s: seq<byte>) {
    WellFormedFrom(s, 0)
  }

  /** Well-formedness of a suffix depends on the suffix only. */
  lemma {:induction false} WellFormedShift(s: seq<byte>, i: nat, t: seq<byte>, j: nat)
    requires i <= |s| && j <= |t| && s[i..] == t[j..]
    ensures WellFormedFrom(s, i) == WellFormedFrom(t, j)
    decreases |s| - i
  {
    assert |s| - i == |t| - j;
    if i < |s| {
      CharLengthShift(s, i, t, j);
      var n := CharLength(s, i);
      if n > 0 {
        assert s[i + n..] == s[i..][n..] && t[j + n..] == t[j..][n..];
        WellFormedShift(s, i + n, t, j + n);
      }
    }
  }

  lemma {:induction false} CharLengthShift(s: seq<byte>, i: nat, t: seq<byte>, j: nat)
    requires i < |s| && j < |t| && |s| - i == |t| - j
    requires s[i..] == t[j..]
    ensures CharLength(s, i) == CharLength(t, j)
  {
    assert s[i] == s[i..][0] && t[j] == t[j..][0];
    if i + 1 < |s| { assert s[i + 1] == s[i..][1] && t[j + 1] == t[j..][1]; }
    if i + 2 < |s| { assert s[i + 2] == s[i..][2] && t[j + 2] == t[j..][2]; }
    if i + 3 < |s| { assert s[i + 3] == s[i..][3] && t[j + 3] == t[j..][3]; }
  }

  /** A character of `s` in front of well-formed bytes. */
  lemma {:induction false} CharBefore(s: seq<byte>, i: nat, rest: seq<byte>)
    requires i < |s| && CharLength(s, i) > 0 && WellFormed(rest)
    ensures WellFormed(s[i..i + CharLength(s, i)] + rest)
  {
    var n := CharLength(s, i);
    var t := s[i..i + n] + rest;
    assert forall k :: 0 <= k < n ==> t[k] == s[i + k];
    assert CharLength(t, 0) == n;
    assert t[n..] == rest[0..];
    WellFormedShift(t, n, rest, 0);
  }

  lemma {:induction false} Unslice(s: seq<byte>, i: nat, j: nat, rest: seq<byte>)
    requires i < j <= |s|
    ensures [s[i]] + (s[i + 1..j] + rest) == s[i..j] + rest
  {
  }

  /** Bytes of 0x80 and above are copied. */
  lemma {:induction false} CopyHigh(s: seq<byte>, i: nat, n: nat)
    requires i + n <= |s| && forall k :: i <= k < i + n ==> s[k] != ESC
    ensures StripFrom(s, i) == s[i..i + n] + StripFrom(s, i + n)
    decreases n
  {
    if n == 0 {
      NothingBefore(s, i, StripFrom(s, i));
    } else {
      assert s[i] != ESC;
      CopyHigh(s, i + 1, n - 1);
      CopyByte(s, i, n, StripFrom(s, i + n));
    }
  }

  lemma {:induction false} CopyByte(s: seq<byte>, i: nat, n: nat, rest: seq<byte>)
    requires 0 < n <= |s| - i && s[i] != ESC && StripFrom(s, i + 1) == s[i + 1..i + n] + rest
    ensures StripFrom(s, i) == s[i..i + n] + rest
  {
    NoSequence(s, i);
    Unslice(s, i, i + n, rest);
  }

  lemma {:induction false} NoSequence(s: seq<byte>, i: nat)
    requires i < |s| && s[i] != ESC
    ensures StripFrom(s, i) == [s[i]] + StripFrom(s, i + 1)
  {
  }

  lemma {:induction false} NothingBefore(s: seq<byte>, i: nat, rest: seq<byte>)
    requires i <= |s|
    ensures s[i..i] + rest == rest
  {
  }

  /** The bytes of an SGR sequence are characters of their own. */
  lemma {:induction false} WellFormedPastAscii(s: seq<byte>, i: nat, end: nat)
    requires i <= end <= |s| && WellFormedFrom(s, i) && forall k :: i <= k < end ==> s[k] < 0x80
    ensures WellFormedFrom(s, end)
    decreases end - i
  {
    if i < end {
      WellFormedPastAscii(s, i + 1, end);
    }
  }

  lemma {:induction false} StripFromWellFormed(s: seq<byte>, i: nat)
    requires i <= |s| && WellFormedFrom(s, i)
    ensures WellFormed(StripFrom(s, i))
    decreases |s| - i
  {
    if i < |s| {
      var end := SgrEnd(s, i);
      if end > i {
        SgrEndIff(s, i, end);
        WellFormedPastAscii(s, i, end);
        StripFromWellFormed(s, end);
      } else {
        var n := CharLength(s, i);
        StripFromWellFormed(s, i + n);
        CharBefore(s, i, StripFrom(s, i + n));
        if n > 1 { CopyHigh(s, i, n); } else { assert s[i..i + 1] == [s[i]]; }
      }
    }
  }

  /** An ASCII byte of well-formed text starts a character, and so does the byte
      after it: both ends of every slice `strip_ansi_sgr` copies are boundaries. */
  lemma {:induction false} AsciiIsBoundary(s: seq<byte>, i: nat, p: nat)
    requires i <= p < |s| && WellFormedFrom(s, i) && s[p] < 0x80
    ensures WellFormedFrom(s, p) && WellFormedFrom(s, p + 1)
    decreases |s| - i
  {
    if i < p {
      AsciiIsBoundary(s, i + CharLength(s, i), p);
    }
  }

  /** Well-formed UTF-8 stays well formed. */
  lemma {:induction false} StripWellFormed(s: seq<byte>)
    requires WellFormed(s)
    ensures WellFormed(Strip(s))
  {
    StripFromWellFormed(s, 0);
  }

  // ---- when a second pass changes nothing ----

  /** How much of an SGR sequence has been read: nothing, `ESC`, `ESC [` with
      parameter bytes, or all of it. */
  datatype Progress = Nothing | AfterEscape | InParameters | Complete

  function Advance(p: Progress, b: byte): Progress {
    if b == ESC then AfterEscape
    else if p.AfterEscape? && b == BRACKET then InParameters
    else if p.InParameters? && IsParameter(b) then InParameters
    else if p.InParameters? && b == FINAL then Complete
    else Nothing
  }

  /** Some sequence is completed from `i` on by bytes around deleted ones. Complete
      sequences of the line itself are passed over. */
  predicate Rejoins(s: seq<byte>, i: nat, p: Progress)
    requires i <= |s|
    decreases |s| - i
  {
    if i == |s| then false
    else if SgrEnd(s, i) > i then Rejoins(s, SgrEnd(s, i), p)
    else Advance(p, s[i]).Complete? || Rejoins(s, i + 1, Advance(p, s[i]))
  }

  /** The same without passing over anything. */
  predicate Completes(t: seq<byte>, i: nat, p: Progress)
    requires i <= |t|
    decreases |t| - i
  {
    i < |t| && (Advance(p, t[i]).Complete? || Completes(t, i + 1, Advance(p, t[i])))
  }

  /** What the scan sees of the line is what is left of it. */
  lemma {:induction false} ScansWhatIsLeft(s: seq<byte>, i: nat, t: seq<byte>, j: nat, p: Progress)
    requires i <= |s| && j <= |t| && t[j..] == StripFrom(s, i)
    ensures Rejoins(s, i, p) == Completes(t, j, p)
    decreases |s| - i
  {
    if i < |s| {
      if SgrEnd(s, i) > i {
        ScansWhatIsLeft(s, SgrEnd(s, i), t, j, p);
      } else {
        assert t[j] == t[j..][0] == s[i] && t[j + 1..] == t[j..][1..];
        ScansWhatIsLeft(s, i + 1, t, j + 1, Advance(p, s[i]));
      }
    }
  }

  /** The bytes `lo..i` begin an SGR sequence as far as `p` says. */
  ghost predicate Begun(t: seq<byte>, lo: nat, i: nat, p: Progress)
    requires i <= |t|
  {
    match p
    case Nothing => lo == i
    case AfterEscape => lo + 1 == i && t[lo] == ESC
    case InParameters =>
      lo + 2 <= i && t[lo] == ESC && t[lo + 1] == BRACKET && forall k :: lo + 2 <= k < i ==> IsParameter(t[k])
    case Complete => false
  }

  /** A completed scan has met a sequence. */
  lemma {:induction false} CompletedSequence(t: seq<byte>, lo: nat, i: nat, p: Progress) returns (at: nat, end: nat)
    requires i <= |t| && Begun(t, lo, i, p) && Completes(t, i, p)
    ensures at < end <= |t| && IsSgr(t, at, end)
    decreases |t| - i
  {
    var next := Advance(p, t[i]);
    if next.Complete? {
      at, end := lo, i + 1;
    } else {
      var from := if next.Nothing? then i + 1 else if next.AfterEscape? then i else lo;
      at, end := CompletedSequence(t, from, i + 1, next);
    }
  }

  /** A scan that has not passed the start of a sequence, or is inside it, completes. */
  lemma {:induction false} SequenceCompletes(t: seq<byte>, lo: nat, hi: nat, i: nat, p: Progress)
    requires lo < hi <= |t| && IsSgr(t, lo, hi) && i < hi
    requires i > lo ==> Begun(t, lo, i, p) && !p.Nothing?
    ensures Completes(t, i, p)
    decreases hi - i
  {
    if i < hi - 1 {
      SequenceCompletes(t, lo, hi, i + 1, Advance(p, t[i]));
    }
  }

  lemma {:induction false} CompletesIff(t: seq<byte>)
    ensures Completes(t, 0, Nothing) <==> !NoneStartsIn(t, 0, |t|)
  {
    if Completes(t, 0, Nothing) {
      var lo, hi := CompletedSequence(t, 0, 0, Nothing);
      SgrEndIff(t, lo, hi);
    }
    if lo :| 0 <= lo < |t| && SgrEnd(t, lo) != lo {
      SgrEndIff(t, lo, SgrEnd(t, lo));
      SequenceCompletes(t, lo, SgrEnd(t, lo), 0, Nothing);
    }
  }

  lemma {:induction false} NothingToStrip(s: seq<byte>, i: nat)
    requires i <= |s| && NoneStartsIn(s, i, |s|)
    ensures StripFrom(s, i) == s[i..]
    decreases |s| - i
  {
    if i < |s| {
      NothingToStrip(s, i + 1);
    }
  }

  /** A second pass changes nothing exactly when no deleted sequence stood between
      the parts of another one. */
  lemma {:induction false} IdempotentIff(s: seq<byte>)
    ensures Strip(Strip(s)) == Strip(s) <==> !Rejoins(s, 0, Nothing)
  {
    var t := Strip(s);
    ScansWhatIsLeft(s, 0, t, 0, Nothing);
    CompletesIff(t);
    LengthTells(t, 0);
    if NoneStartsIn(t, 0, |t|) {
      NothingToStrip(t, 0);
    }
  }

  /** `ESC ESC [ m [ m`: deleting the middle leaves `ESC [ m`. */
  const REJOINING: seq<byte> := [ESC, ESC, BRACKET, FINAL, BRACKET, FINAL]

  /** One pass can leave a sequence. */
  lemma {:induction false} NotIdempotent()
    ensures WellFormed(REJOINING) && Strip(Strip(REJOINING)) != Strip(REJOINING)
  {
    var s := REJOINING;
    assert WellFormedFrom(s, 6) && WellFormedFrom(s, 5) && WellFormedFrom(s, 4) && WellFormedFrom(s, 3);
    assert WellFormedFrom(s, 2) && WellFormedFrom(s, 1);
    assert ParametersEnd(s, 3) == 3 && SgrEnd(s, 0) == 0 && SgrEnd(s, 1) == 4;
    assert SgrEnd(s, 4) == 4 && SgrEnd(s, 5) == 5;
    assert Rejoins(s, 5, InParameters) && Rejoins(s, 4, AfterEscape) && Rejoins(s, 1, AfterEscape);
    IdempotentIff(s);
  }
}
