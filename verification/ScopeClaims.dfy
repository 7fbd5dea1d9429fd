/**
 The `methods` and `path_prefix` claims of a token: which calls they admit, and what
 an admitted path is once an upstream normalises it.
 */
module ScopeClaims {
  import opened Separated

  /** A JSON value, as far as the claims look into it. */
  datatype Claim = Text(text: string) | List(items: seq<Claim>) | Other

  const REFUSAL_METHOD: string := "method not permitted"
  const REFUSAL_PATH: string := "path not permitted"

  function Segments(path: string): seq<string> { Split(path, '/') }

  predicate IsDots(segment: string) { segment == "." || segment == ".." }

  ghost predicate NoDots(path: string) {
    forall i :: 0 <= i < |Segments(path)| ==> !IsDots(Segments(path)[i])
  }

  /** One trailing slash taken off. */
  function TrimSlash(prefix: string): string {
    if prefix != "" && prefix[|prefix| - 1] == '/' then prefix[..|prefix| - 1] else prefix
  }

  predicate Within(path: string, prefix: string) {
    path == prefix || TrimSlash(prefix) + "/" <= path
  }

  ghost predicate MethodAdmitted(claims: map<string, Claim>, name: string) {
    "methods" in claims ==>
      var c := claims["methods"];
      && c.List?
      && (forall i :: 0 <= i < |c.items| ==> c.items[i].Text?)
      && (exists i :: 0 <= i < |c.items| && c.items[i] == Text(name))
  }

  ghost predicate PathAdmitted(claims: map<string, Claim>, path: string) {
    "path_prefix" in claims ==>
      var c := claims["path_prefix"];
      c.Text? && "/" <= c.text && NoDots(path) && Within(path, c.text)
  }

  method HasDots(path: string) returns (found: bool)
    ensures found <==> !NoDots(path)
  {
    var segments := Segments(path);
    var i := 0;
    while i < |segments|
      invariant 0 <= i <= |segments|
      invariant forall j :: 0 <= j < i ==> !IsDots(segments[j])
    {
      if IsDots(segments[i]) { return true; }
      i := i + 1;
    }
    return false;
  }

  /** `checkScopeClaims`: no refusal exactly for an admitted method and path, and the method is judged first. */
  method CheckScopeClaims(claims: map<string, Claim>, name: string, path: string) returns (refusal: string)
    ensures refusal == "" <==> MethodAdmitted(claims, name) && PathAdmitted(claims, path)
    ensures refusal == REFUSAL_METHOD <==> !MethodAdmitted(claims, name)
    ensures refusal == REFUSAL_PATH <==> MethodAdmitted(claims, name) && !PathAdmitted(claims, path)
  {
    assert |REFUSAL_METHOD| == 20 && |REFUSAL_PATH| == 18;
    if "methods" in claims {
      var raw := claims["methods"];
      if !raw.List? || |raw.items| == 0 { return REFUSAL_METHOD; }
      var permitted := false;
      var i := 0;
      while i < |raw.items|
        invariant 0 <= i <= |raw.items|
        invariant forall j :: 0 <= j < i ==> raw.items[j].Text?
        invariant permitted <==> exists j :: 0 <= j < i && raw.items[j] == Text(name)
      {
        if !raw.items[i].Text? { return REFUSAL_METHOD; }
        if raw.items[i].text == name { permitted := true; }
        i := i + 1;
      }
      if !permitted { return REFUSAL_METHOD; }
    }
    if "path_prefix" in claims {
      var raw := claims["path_prefix"];
      if !raw.Text? || !("/" <= raw.text) { return REFUSAL_PATH; }
      var dots := HasDots(path);
      if dots { return REFUSAL_PATH; }
      if path != raw.text && !(TrimSlash(raw.text) + "/" <= path) { return REFUSAL_PATH; }
    }
    return "";
  }

  // ------------------------------------------------------------ segment by segment

  /** `b` is `a` and at least one more. */
  predicate Extends(a: seq<string>, b: seq<string>) {
    |a| < |b| && b[..|a|] == a
  }

  lemma ExtendsIsPrefix(base: string, path: string)
    ensures base + "/" <= path <==> Extends(Segments(base), Segments(path))
  {
    if base + "/" <= path {
      var rest := path[|base| + 1..];
      assert path == base + ['/'] + rest;
      SplitConcat(base, rest, '/');
    }
    if Extends(Segments(base), Segments(path)) {
      var a, b := Segments(base), Segments(path)[|Segments(base)|..];
      assert Segments(path) == a + b;
      JoinSplit(base, '/');
      JoinSplit(path, '/');
      JoinConcat(a, b);
      assert path == base + ['/'] + Join(b, '/');
    }
  }

  lemma {:induction false} JoinConcat(a: seq<string>, b: seq<string>)
    requires |a| >= 1 && |b| >= 1
    ensures Join(a + b, '/') == Join(a, '/') + ['/'] + Join(b, '/')
    decreases |a|
  {
    assert (a + b)[1..] == a[1..] + b;
    if |a| > 1 {
      JoinConcat(a[1..], b);
      assert Join(a + b, '/') == a[0] + ['/'] + (Join(a[1..], '/') + ['/'] + Join(b, '/'));
    } else {
      assert a[1..] + b == b;
    }
  }

  /** An admitted path is the prefix itself, or goes on from it by whole segments. */
  lemma WithinIsBySegments(path: string, prefix: string)
    ensures Within(path, prefix) <==> path == prefix || Extends(Segments(TrimSlash(prefix)), Segments(path))
  {
    ExtendsIsPrefix(TrimSlash(prefix), path);
  }

  /** Narrowing composes: below a prefix that is itself below another. */
  lemma WithinIsTransitive(path: string, inner: string, outer: string)
    requires Within(path, inner) && Within(inner, outer)
    ensures Within(path, outer)
  {
    var i, o := TrimSlash(inner), TrimSlash(outer);
    if path != inner && inner != outer {
      assert i + "/" <= path && o + "/" <= inner;
      assert |o| + 1 <= |i| + 1;
      assert path[..|i| + 1] == i + "/";
      if inner == i {
        assert path[..|o| + 1] == (i + "/")[..|o| + 1] == i[..|o| + 1] == o + "/";
      } else {
        assert inner == i + "/";
        assert path[..|o| + 1] == (i + "/")[..|o| + 1] == o + "/";
      }
    }
  }

  // ------------------------------------------------------------ dot segments

  /** Where the first segment of an input ends: at the first slash that does not lead it. */
  function SegmentEnd(input: string, from: nat): (k: nat)
    requires from <= |input|
    ensures from <= k <= |input|
    ensures forall j :: from <= j < k ==> input[j] != '/'
    ensures k < |input| ==> input[k] == '/'
    decreases |input| - from
  {
    if from == |input| || input[from] == '/' then from else SegmentEnd(input, from + 1)
  }

  /** The output without its last segment and the slash before it. */
  function DropSegment(output: string): string {
    if output == "" then "" else if output[|output| - 1] == '/' then output[..|output| - 1] else DropSegment(output[..|output| - 1])
  }

  /** `remove_dot_segments` of section 5.2.4 of RFC 3986. */
  function RemoveDots(input: string, output: string): string
    decreases |input|
  {
    if input == "" then output
    else if "../" <= input then RemoveDots(input[3..], output)
    else if "./" <= input then RemoveDots(input[2..], output)
    else if "/./" <= input then RemoveDots(input[2..], output)
    else if input == "/." then RemoveDots("/", output)
    else if "/../" <= input then RemoveDots(input[3..], DropSegment(output))
    else if input == "/.." then RemoveDots("/", DropSegment(output))
    else if input == "." || input == ".." then output
    else
      var k := SegmentEnd(input, if input[0] == '/' then 1 else 0);
      RemoveDots(input[k..], output + input[..k])
  }

  lemma LedSegments(input: string)
    requires "/" <= input
    ensures Segments(input) == [""] + Segments(input[1..])
  {
    assert input == [] + ['/'] + input[1..];
    SplitConcat([], input[1..], '/');
    var none: string := [];
    assert Segments(none) == [none];
  }

  lemma CutSegments(path: string, k: nat)
    requires k <= |path| && '/' !in path[..k] && (k < |path| ==> path[k] == '/')
    ensures Segments(path) == [path[..k]] + if k < |path| then Segments(path[k + 1..]) else []
  {
    SplitWithout(path[..k], '/');
    if k < |path| {
      assert path == path[..k] + ['/'] + path[k + 1..];
      SplitConcat(path[..k], path[k + 1..], '/');
    } else {
      assert path[..k] == path;
    }
  }

  lemma SegmentIsClean(input: string, k: nat)
    requires "/" <= input && k == SegmentEnd(input, 1)
    ensures var path := input[1..];
            path[..k - 1] == input[1..k] && '/' !in path[..k - 1] && (k - 1 < |path| ==> path[k - 1] == '/')
  {
    var path := input[1..];
    forall i | 0 <= i < k - 1 ensures path[i] != '/' { assert path[i] == input[i + 1]; }
  }

  function After(input: string, k: nat): seq<string> {
    if k < |input| then Segments(input[k + 1..]) else []
  }

  /** The segments of a path that starts with a slash: an empty one, the first one, and the rest. */
  lemma LedCut(input: string, k: nat)
    requires "/" <= input && k == SegmentEnd(input, 1)
    ensures Segments(input) == [""] + ([input[1..k]] + After(input, k))
  {
    var path := input[1..];
    SegmentIsClean(input, k);
    LedSegments(input);
    CutSegments(path, k - 1);
    if k < |input| { assert path[k - 1 + 1..] == input[k + 1..]; }
  }

  lemma Regroup(first: string, rest: seq<string>)
    ensures ([""] + rest)[1..] == rest && [""] + ([first] + rest) == ["", first] + rest
  {
  }

  /** The first segment after the leading slash, and what follows it. */
  lemma FirstSegment(input: string, k: nat)
    requires "/" <= input && k == SegmentEnd(input, 1)
    ensures k < |input| ==> Segments(input) == ["", input[1..k]] + Segments(input[k..])[1..] && Segments(input[k..])[0] == ""
    ensures k == |input| ==> Segments(input) == ["", input[1..k]] && Segments(input[k..]) == [""]
  {
    LedCut(input, k);
    if k < |input| {
      var tail, rest := input[k..], Segments(input[k + 1..]);
      LedSegments(tail);
      assert tail[1..] == input[k + 1..];
      Regroup(input[1..k], rest);
    } else {
      EmptyPath();
      Regroup(input[1..k], []);
    }
  }

  lemma EmptyPath()
    ensures Segments("") == [""]
  {
    var none: string := [];
    assert Segments(none) == [none];
  }

  lemma NoDotsSplits(input: string, k: nat)
    requires "/" <= input && k == SegmentEnd(input, 1)
    ensures NoDots(input) <==> NoDots(input[k..]) && !IsDots(input[1..k])
  {
    FirstSegment(input, k);
    var all, rest := Segments(input), Segments(input[k..]);
    if NoDots(input) {
      assert all[1] == input[1..k];
      forall i | 0 <= i < |rest| ensures !IsDots(rest[i]) {
        if i > 0 { assert all[i + 1] == rest[i]; }
      }
    }
    if NoDots(input[k..]) && !IsDots(input[1..k]) {
      forall i | 0 <= i < |all| ensures !IsDots(all[i]) {
        if i > 1 { assert all[i] == rest[i - 1]; }
      }
    }
  }

  /** The two rules that remove a segment apply exactly when the first one is dots. */
  lemma DotRules(input: string, k: nat)
    requires "/" <= input && k == SegmentEnd(input, 1)
    ensures input[1..k] == "." <==> "/./" <= input || input == "/."
    ensures input[1..k] == ".." <==> "/../" <= input || input == "/.."
  {
    if "/./" <= input || input == "/." {
      assert input[1] == '.' && k == 2;
    }
    if "/../" <= input || input == "/.." {
      assert input[1] == '.' && input[2] == '.';
      assert "/../" <= input ==> input[3] == '/';
      assert k == 3;
    }
    if input[1..k] == "." {
      assert k == 2 && input[1] == input[1..k][0];
      assert input[..2] == "/.";
    }
    if input[1..k] == ".." {
      assert k == 3 && input[1] == input[1..k][0] && input[2] == input[1..k][1];
      assert input[..3] == "/..";
    }
  }

  lemma {:induction false} RemovalShortens(input: string, output: string)
    ensures |RemoveDots(input, output)| <= |input| + |output|
    decreases |input|
  {
    if input == "" {
    } else if "../" <= input {
      RemovalShortens(input[3..], output);
    } else if "./" <= input || "/./" <= input {
      RemovalShortens(input[2..], output);
    } else if input == "/." {
      RemovalShortens("/", output);
    } else if "/../" <= input {
      DropShortens(output);
      RemovalShortens(input[3..], DropSegment(output));
    } else if input == "/.." {
      DropShortens(output);
      RemovalShortens("/", DropSegment(output));
    } else if input != "." && input != ".." {
      var k := SegmentEnd(input, if input[0] == '/' then 1 else 0);
      RemovalShortens(input[k..], output + input[..k]);
    }
  }

  lemma {:induction false} DropShortens(output: string)
    ensures |DropSegment(output)| <= |output|
    decreases |output|
  {
    if output != "" && output[|output| - 1] != '/' {
      DropShortens(output[..|output| - 1]);
    }
  }

  /** One step of the removal on a path that starts with a slash. */
  lemma RemovalStep(input: string, output: string, k: nat)
    requires "/" <= input && k == SegmentEnd(input, 1)
    ensures !IsDots(input[1..k]) ==> RemoveDots(input, output) == RemoveDots(input[k..], output + input[..k])
    ensures IsDots(input[1..k]) ==> |RemoveDots(input, output)| < |input| + |output|
  {
    DotRules(input, k);
    if input[1..k] == "." {
      OneDotRemoved(input, output);
    } else if input[1..k] == ".." {
      TwoDotsRemoved(input, output);
    } else {
      SegmentMoved(input, output, k);
    }
  }

  lemma SegmentMoved(input: string, output: string, k: nat)
    requires "/" <= input && k == SegmentEnd(input, 1)
    requires !("/./" <= input) && input != "/." && !("/../" <= input) && input != "/.."
    ensures RemoveDots(input, output) == RemoveDots(input[k..], output + input[..k])
  {
    assert input[0] == '/';
    assert !("../" <= input) && !("./" <= input) && input != "." && input != "..";
  }

  lemma OneDotRemoved(input: string, output: string)
    requires "/./" <= input || input == "/."
    ensures |RemoveDots(input, output)| < |input| + |output|
  {
    assert input[0] == '/' && input[1] == '.';
    if "/./" <= input {
      assert RemoveDots(input, output) == RemoveDots(input[2..], output);
      RemovalShortens(input[2..], output);
    } else {
      assert RemoveDots(input, output) == RemoveDots("/", output);
      RemovalShortens("/", output);
    }
  }

  lemma TwoDotsRemoved(input: string, output: string)
    requires "/../" <= input || input == "/.."
    ensures |RemoveDots(input, output)| < |input| + |output|
  {
    var shorter := DropSegment(output);
    DropShortens(output);
    assert input[0] == '/' && input[1] == '.' && input[2] == '.';
    if "/../" <= input {
      assert RemoveDots(input, output) == RemoveDots(input[3..], shorter);
      RemovalShortens(input[3..], shorter);
    } else {
      assert RemoveDots(input, output) == RemoveDots("/", shorter);
      RemovalShortens("/", shorter);
    }
  }

  lemma Moved(input: string, output: string, k: nat)
    requires k <= |input|
    ensures (output + input[..k]) + input[k..] == output + input
  {
  }

  /** A path that starts with a slash is normal exactly when it has no dot segments. */
  lemma {:induction false} NormalIffNoDots(input: string, output: string)
    requires input == "" || "/" <= input
    ensures RemoveDots(input, output) == output + input <==> NoDots(input)
    ensures !NoDots(input) ==> |RemoveDots(input, output)| < |input| + |output|
    decreases |input|
  {
    if input == "" {
      var none: string := [];
      assert Segments(none) == [none];
      assert output + input == output;
    } else {
      var k := SegmentEnd(input, 1);
      NoDotsSplits(input, k);
      RemovalStep(input, output, k);
      if !IsDots(input[1..k]) {
        var rest, moved := input[k..], output + input[..k];
        NormalIffNoDots(rest, moved);
        Moved(input, output, k);
      }
    }
  }

  /** An admitted path is already normal, so an upstream that normalises it still sees it below the prefix. */
  lemma AdmittedIsNormal(claims: map<string, Claim>, path: string)
    requires "path_prefix" in claims && PathAdmitted(claims, path)
    ensures RemoveDots(path, "") == path && Within(RemoveDots(path, ""), claims["path_prefix"].text)
  {
    var prefix := claims["path_prefix"].text;
    if path != prefix {
      var base := TrimSlash(prefix);
      assert (base + "/")[0] == '/';
      assert path[0] == '/';
    }
    NormalIffNoDots(path, "");
    assert "" + path == path;
  }
}
