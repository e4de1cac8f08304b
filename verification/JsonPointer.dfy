/** JSON Pointer text (RFC 6901): how `json_pointer_segment` and the path
    building of `collect_json_diff_paths` write one, and how a reader decodes it. */
module JsonPointer {
  import opened Wrappers
  import opened Text
  import opened Json

  /** Rust's `str::replace` for a one-character pattern. */
  function Replace(text: string, from: char, to: string): string {
    if text == [] then []
    else (if text[0] == from then to else [text[0]]) + Replace(text[1..], from, to)
  }

  /** `json_pointer_segment`: two passes, tilde first. */
  function Escape(token: string): string {
    Replace(Replace(token, '~', "~0"), '/', "~1")
  }

  /** Undoes the escapes of section 3; `None` on a stray tilde or slash. */
  function Unescape(segment: string): Option<string> {
    if segment == [] then Some([])
    else if segment[0] == '/' then None
    else if segment[0] != '~' then
      var rest :- Unescape(segment[1..]);
      Some([segment[0]] + rest)
    else if |segment| < 2 || segment[1] !in "01" then None
    else
      var rest :- Unescape(segment[2..]);
      Some([if segment[1] == '0' then '~' else '/'] + rest)
  }

  /** The text of a pointer: every token escaped and introduced by a slash. */
  function Pointer(path: Tokens): string {
    if path == [] then "" else "/" + Escape(path[0]) + Pointer(path[1..])
  }

  /** Where the segment at the start of `text` ends. */
  function SegmentLength(text: string): (n: nat)
    ensures n <= |text|
    ensures forall i :: 0 <= i < n ==> text[i] != '/'
    ensures n < |text| ==> text[n] == '/'
  {
    if text == [] || text[0] == '/' then 0 else 1 + SegmentLength(text[1..])
  }

  function Decode(pointer: string): Option<Tokens>
    decreases |pointer|
  {
    if pointer == "" then Some([])
    else if pointer[0] != '/' then None
    else
      var n := SegmentLength(pointer[1..]);
      var token :- Unescape(pointer[1..][..n]);
      var rest :- Decode(pointer[1..][n..]);
      Some([token] + rest)
  }

  lemma {:induction false} Regroup(a: string, b: string, c: string)
    ensures a + (b + c) == (a + b) + c
  {
  }

  lemma {:induction false} ReplaceAppend(a: string, b: string, from: char, to: string)
    ensures Replace(a + b, from, to) == Replace(a, from, to) + Replace(b, from, to)
  {
    if a == [] {
      assert a + b == b;
    } else {
      ReplaceAppend(a[1..], b, from, to);
      assert (a + b)[1..] == a[1..] + b;
      Regroup(if a[0] == from then to else [a[0]], Replace(a[1..], from, to), Replace(b, from, to));
    }
  }

  function EscapeChar(c: char): string {
    if c == '~' then "~0" else if c == '/' then "~1" else [c]
  }

  /** Two passes amount to escaping each character on its own. */
  lemma {:induction false} EscapeCons(token: string)
    requires token != []
    ensures Escape(token) == EscapeChar(token[0]) + Escape(token[1..])
  {
    var first := if token[0] == '~' then "~0" else [token[0]];
    ReplaceAppend(first, Replace(token[1..], '~', "~0"), '/', "~1");
    if token[0] == '~' {
      assert "~0"[1..] == "0" && "0"[1..] == "";
      assert Replace("0", '/', "~1") == "0";
      assert Replace("~0", '/', "~1") == "~0";
    } else {
      assert first[1..] == "";
    }
  }

  /** Escaping works character by character: a tilde becomes `~0`, a slash `~1`, and
      anything else stays. */
  lemma {:induction false} EscapeParts(a: string, b: string, c: char)
    ensures Escape(a + b) == Escape(a) + Escape(b) && Escape("") == ""
    ensures Escape("~") == "~0" && Escape("/") == "~1" && (c != '~' && c != '/' ==> Escape([c]) == [c])
  {
    ReplaceAppend(a, b, '~', "~0");
    ReplaceAppend(Replace(a, '~', "~0"), Replace(b, '~', "~0"), '/', "~1");
    EscapeCons("~");
    EscapeCons("/");
    EscapeCons([c]);
  }

  /** A pointer's text is that of its tokens, each escaped after a slash. */
  lemma {:induction false} PointerParts(p: Tokens, q: Tokens, token: string)
    ensures Pointer(p + q) == Pointer(p) + Pointer(q) && Pointer([]) == ""
    ensures Pointer([token]) == "/" + Escape(token)
  {
    assert [token][1..] == [];
    if p == [] {
      assert p + q == q;
    } else {
      PointerParts(p[1..], q, token);
      assert (p + q)[1..] == p[1..] + q;
    }
  }

  lemma {:induction false} UnescapeEscape(token: string)
    ensures Unescape(Escape(token)) == Some(token)
    ensures '/' !in Escape(token)
  {
    if token != [] {
      EscapeCons(token);
      UnescapeEscape(token[1..]);
      var tail := Escape(token[1..]);
      assert token == [token[0]] + token[1..];
      if token[0] == '~' || token[0] == '/' {
        assert Escape(token)[2..] == tail;
      } else {
        assert Escape(token)[1..] == tail;
      }
    }
  }

  lemma {:induction false} SegmentLengthOf(segment: string, rest: string)
    requires '/' !in segment && (rest == "" || rest[0] == '/')
    ensures SegmentLength(segment + rest) == |segment|
  {
    if segment == [] {
      assert segment + rest == rest;
    } else {
      assert (segment + rest)[1..] == segment[1..] + rest;
      SegmentLengthOf(segment[1..], rest);
    }
  }

  lemma {:induction false} DecodeStep(segment: string, rest: string)
    requires '/' !in segment && (rest == "" || rest[0] == '/')
    requires Unescape(segment).Some? && Decode(rest).Some?
    ensures Decode("/" + segment + rest) == Some([Unescape(segment).value] + Decode(rest).value)
  {
    var text := "/" + segment + rest;
    assert text[1..] == segment + rest;
    SegmentLengthOf(segment, rest);
    assert (segment + rest)[..|segment|] == segment;
    assert (segment + rest)[|segment|..] == rest;
  }

  /** Reading back what was written gives the tokens: the escaping of section 3
      is inverted by decoding. */
  lemma {:induction false} DecodePointer(path: Tokens)
    ensures Decode(Pointer(path)) == Some(path)
  {
    if path != [] {
      DecodePointer(path[1..]);
      UnescapeEscape(path[0]);
      DecodeStep(Escape(path[0]), Pointer(path[1..]));
      assert path == [path[0]] + path[1..];
    }
  }

  lemma {:induction false} PointerInjective(p: Tokens, q: Tokens)
    requires Pointer(p) == Pointer(q)
    ensures p == q
  {
    DecodePointer(p);
    DecodePointer(q);
  }

  lemma {:induction false} DigitsNeedNoEscape(token: string)
    requires forall i :: 0 <= i < |token| ==> IsDigit(token[i])
    ensures Escape(token) == token
  {
    if token != [] {
      EscapeCons(token);
      DigitsNeedNoEscape(token[1..]);
      assert token == [token[0]] + token[1..];
    }
  }
}
