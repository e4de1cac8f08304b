/** `normalize_path`: the repository-relative form of a path. */
module RepositoryPath {
  import opened Wrappers
  import opened Text
  import opened Selection

  const MAX_PATH_BYTES := 4096

  datatype PathRejection = TooLong | EmptyOrAbsolute | Escapes | NoComponent

  /** The parts between slashes, empty ones included. */
  function Split(path: string): (r: seq<string>)
    ensures r != []
    decreases |path|
  {
    if path == "" then [""]
    else
      var rest := Split(path[1..]);
      if path[0] == '/' then [""] + rest else [[path[0]] + rest[0]] + rest[1..]
  }

  /** Drops the empty and `.` parts; `None` when a `..` part is met. */
  function Normal(parts: seq<string>): Option<seq<string>> {
    if parts == [] then Some([])
    else if parts[0] == ".." then None
    else
      var rest :- Normal(parts[1..]);
      Some(if parts[0] == "" || parts[0] == "." then rest else [parts[0]] + rest)
  }

  function Join(parts: seq<string>): string {
    if parts == [] then "" else if |parts| == 1 then parts[0] else parts[0] + "/" + Join(parts[1..])
  }

  /** `normalize_path` */
  function NormalizePath(path: string): Result<string, PathRejection> {
    if ByteLength(path) > MAX_PATH_BYTES then Err(TooLong)
    else if path == "" || path[0] == '/' then Err(EmptyOrAbsolute)
    else match Normal(Split(path))
      case None => Err(Escapes)
      case Some(parts) => if parts == [] then Err(NoComponent) else Ok(Join(parts))
  }

  function After(kept: seq<string>, rest: Option<seq<string>>): Option<seq<string>> {
    match rest
    case None => None
    case Some(parts) => Some(kept + parts)
  }

  lemma {:induction false} AfterNothing(rest: Option<seq<string>>)
    ensures After([], rest) == rest
  {
    if rest.Some? {
      assert [] + rest.value == rest.value;
    }
  }

  lemma {:induction false} AfterOne(kept: seq<string>, part: string, rest: Option<seq<string>>)
    ensures After(kept, After([part], rest)) == After(kept + [part], rest)
  {
    if rest.Some? {
      assert kept + ([part] + rest.value) == (kept + [part]) + rest.value;
    }
  }

  /** The loop over the components. */
  method CollectComponents(path: string) returns (parts: Option<seq<string>>)
    ensures parts == Normal(Split(path))
  {
    var components := Split(path);
    var kept: seq<string> := [];
    var n := 0;
    assert components[0..] == components;
    AfterNothing(Normal(components));
    while n < |components|
      invariant n <= |components|
      invariant Normal(components) == After(kept, Normal(components[n..]))
    {
      assert components[n..][0] == components[n] && components[n..][1..] == components[n + 1..];
      if components[n] == ".." {
        return None;
      }
      AfterOne(kept, components[n], Normal(components[n + 1..]));
      if components[n] != "" && components[n] != "." {
        kept := kept + [components[n]];
      }
      n := n + 1;
    }
    assert components[n..] == [] && kept + [] == kept;
    parts := Some(kept);
  }

  /** A component that stays: not empty, not `.` or `..`, without a slash. */
  predicate Plain(part: string) {
    part != "" && part != "." && part != ".." && '/' !in part
  }

  lemma {:induction false} SplitHasNoSlash(path: string)
    ensures forall i :: 0 <= i < |Split(path)| ==> '/' !in Split(path)[i]
  {
    if path != "" {
      SplitHasNoSlash(path[1..]);
    }
  }

  lemma {:induction false} NormalIsPlain(parts: seq<string>)
    requires Normal(parts).Some? && forall i :: 0 <= i < |parts| ==> '/' !in parts[i]
    ensures forall i :: 0 <= i < |Normal(parts).value| ==> Plain(Normal(parts).value[i])
  {
    if parts != [] {
      NormalIsPlain(parts[1..]);
    }
  }

  lemma {:induction false} NormalOfPlain(parts: seq<string>)
    requires forall i :: 0 <= i < |parts| ==> Plain(parts[i])
    ensures Normal(parts) == Some(parts)
  {
    if parts != [] {
      NormalOfPlain(parts[1..]);
      assert parts == [parts[0]] + parts[1..];
    }
  }

  lemma {:induction false} SplitPlain(part: string, rest: string)
    requires '/' !in part
    ensures Split(part) == [part]
    ensures Split(part + "/" + rest) == [part] + Split(rest)
  {
    if part == "" {
      assert (part + "/" + rest)[1..] == rest;
    } else {
      SplitPlain(part[1..], rest);
      assert (part + "/" + rest)[1..] == part[1..] + "/" + rest;
      assert part == [part[0]] + part[1..];
    }
  }

  lemma {:induction false} SplitJoin(parts: seq<string>)
    requires parts != [] && forall i :: 0 <= i < |parts| ==> Plain(parts[i])
    ensures Split(Join(parts)) == parts && Join(parts) != "" && Join(parts)[0] != '/'
  {
    if |parts| == 1 {
      SplitPlain(parts[0], "");
      assert parts == [parts[0]];
    } else {
      SplitJoin(parts[1..]);
      SplitPlain(parts[0], Join(parts[1..]));
      var joined := Join(parts);
      assert joined == parts[0] + "/" + Join(parts[1..]);
      assert joined[0] == parts[0][0];
      assert parts == [parts[0]] + parts[1..];
    }
  }

  lemma {:induction false} ByteLengthAppend(a: string, b: string)
    ensures ByteLength(a + b) == ByteLength(a) + ByteLength(b)
  {
    if a == "" {
      assert a + b == b;
    } else {
      ByteLengthAppend(a[1..], b);
      assert (a + b)[1..] == a[1..] + b;
    }
  }

  function PartsBytes(parts: seq<string>): nat {
    if parts == [] then 0 else ByteLength(parts[0]) + 1 + PartsBytes(parts[1..])
  }

  lemma {:induction false} SplitBytes(path: string)
    ensures PartsBytes(Split(path)) == ByteLength(path) + 1
  {
    if path == "" {
      assert Split(path)[1..] == [];
    } else {
      SplitBytes(path[1..]);
      var rest := Split(path[1..]);
      if path[0] == '/' {
        assert ([""] + rest)[1..] == rest;
      } else {
        ByteLengthAppend([path[0]], rest[0]);
        assert Split(path)[1..] == rest[1..];
        assert path == [path[0]] + path[1..];
        ByteLengthAppend([path[0]], path[1..]);
      }
    }
  }

  lemma {:induction false} NormalBytes(parts: seq<string>)
    requires Normal(parts).Some?
    ensures PartsBytes(Normal(parts).value) <= PartsBytes(parts)
  {
    if parts != [] {
      NormalBytes(parts[1..]);
      var rest := Normal(parts[1..]).value;
      assert ([parts[0]] + rest)[1..] == rest;
    }
  }

  lemma {:induction false} JoinBytes(parts: seq<string>)
    requires parts != []
    ensures ByteLength(Join(parts)) + 1 == PartsBytes(parts)
  {
    if |parts| == 1 {
      assert parts[1..] == [];
    } else {
      JoinBytes(parts[1..]);
      ByteLengthAppend(parts[0] + "/", Join(parts[1..]));
      ByteLengthAppend(parts[0], "/");
      assert parts[0] + "/" + Join(parts[1..]) == (parts[0] + "/") + Join(parts[1..]);
      assert ByteLength("/") == 1;
    }
  }

  /** A normalised path is its own normal form, so equal normal forms are the only
      thing the per-path index has to compare. */
  lemma {:induction false} NormalizeIdempotent(path: string)
    requires NormalizePath(path).Ok?
    ensures NormalizePath(NormalizePath(path).value) == NormalizePath(path)
  {
    var parts := Normal(Split(path)).value;
    SplitHasNoSlash(path);
    NormalIsPlain(Split(path));
    SplitJoin(parts);
    NormalOfPlain(parts);
    SplitBytes(path);
    NormalBytes(Split(path));
    JoinBytes(parts);
  }

  // ---- what the normal form is, said on the parts between slashes ----

  ghost predicate NoSlashes(parts: seq<string>) {
    parts != [] && forall i :: 0 <= i < |parts| ==> '/' !in parts[i]
  }

  lemma {:induction false} JoinSplit(path: string)
    ensures Join(Split(path)) == path
  {
    if path != "" {
      JoinSplit(path[1..]);
      var rest := Split(path[1..]);
      assert path == [path[0]] + path[1..];
      if path[0] == '/' {
        assert ([""] + rest)[1..] == rest;
        assert "" + "/" + Join(rest) == "/" + Join(rest);
      } else {
        assert ([[path[0]] + rest[0]] + rest[1..])[1..] == rest[1..];
        JoinHead([path[0]], rest);
      }
    }
  }

  lemma {:induction false} JoinHead(head: string, parts: seq<string>)
    requires parts != []
    ensures Join([head + parts[0]] + parts[1..]) == head + Join(parts)
  {
    var longer := [head + parts[0]] + parts[1..];
    assert longer[1..] == parts[1..];
    if |parts| > 1 {
      assert (head + parts[0]) + "/" + Join(parts[1..]) == head + (parts[0] + "/" + Join(parts[1..]));
    }
  }

  lemma {:induction false} SplitJoined(parts: seq<string>)
    requires NoSlashes(parts)
    ensures Split(Join(parts)) == parts
  {
    if |parts| == 1 {
      SplitPlain(parts[0], "");
      assert parts == [parts[0]];
    } else {
      SplitJoined(parts[1..]);
      SplitPlain(parts[0], Join(parts[1..]));
      assert parts == [parts[0]] + parts[1..];
    }
  }

  /** The parts are the one list of strings without slashes that slashes join to the
      path. */
  lemma {:induction false} PartsIff(path: string, parts: seq<string>)
    ensures parts == Split(path) <==> NoSlashes(parts) && Join(parts) == path
  {
    JoinSplit(path);
    SplitHasNoSlash(path);
    if NoSlashes(parts) { SplitJoined(parts); }
  }

  ghost function Stays(parts: seq<string>): nat -> bool {
    (i: nat) => i < |parts| && parts[i] != "" && parts[i] != "."
  }

  ghost predicate KeptAt(parts: seq<string>, at: seq<nat>, kept: seq<string>) {
    |kept| == |at| && forall k :: 0 <= k < |at| ==> at[k] < |parts| && kept[k] == parts[at[k]]
  }

  lemma {:induction false} NormalSnoc(parts: seq<string>, last: string)
    ensures Normal(parts + [last]) ==
            match Normal(parts)
            case None => None
            case Some(kept) =>
              if last == ".." then None else Some(if last == "" || last == "." then kept else kept + [last])
  {
    if parts == [] {
      assert parts + [last] == [last] && [last][1..] == [] && [last] + [] == [] + [last];
    } else {
      NormalSnoc(parts[1..], last);
      assert (parts + [last])[1..] == parts[1..] + [last];
      var rest := Normal(parts[1..]);
      if rest.Some? {
        assert [parts[0]] + (rest.value + [last]) == ([parts[0]] + rest.value) + [last];
      }
    }
  }

  lemma {:induction false} NormalTo(parts: seq<string>, n: nat) returns (at: seq<nat>)
    requires n <= |parts|
    ensures Picks(at, n, Stays(parts))
    ensures Normal(parts[..n]).None? <==> ".." in parts[..n]
    ensures Normal(parts[..n]).Some? ==> KeptAt(parts, at, Normal(parts[..n]).value)
  {
    if n == 0 {
      at := [];
    } else {
      var before := NormalTo(parts, n - 1);
      assert parts[..n] == parts[..n - 1] + [parts[n - 1]];
      NormalSnoc(parts[..n - 1], parts[n - 1]);
      PicksNext(before, n - 1, Stays(parts));
      at := if Stays(parts)(n - 1) then before + [n - 1] else before;
    }
  }

  /** A path is accepted exactly when it is at most 4096 bytes, relative, has no `..` part
      and some part that stays; its normal form joins, in order, the parts that are not
      empty and not `.`. */
  lemma {:induction false} NormalizeIff(path: string) returns (parts: seq<string>, at: seq<nat>)
    ensures NoSlashes(parts) && Join(parts) == path && Picks(at, |parts|, Stays(parts))
    ensures NormalizePath(path).Ok?
            <==> ByteLength(path) <= 4096 && path != "" && path[0] != '/' && ".." !in parts && at != []
    ensures NormalizePath(path).Ok? ==>
              exists kept :: KeptAt(parts, at, kept) && NormalizePath(path).value == Join(kept)
  {
    parts := Split(path);
    PartsIff(path, parts);
    at := NormalTo(parts, |parts|);
    assert parts[..|parts|] == parts;
  }
}
