/** Absolute path strings and their components. */
module Paths {
  import opened Domain

  /** The pieces between slashes; there is always at least one piece. */
  function Split(s: string): (r: seq<string>)
    ensures |r| >= 1
    ensures forall i :: 0 <= i < |r| ==> '/' !in r[i]
  {
    if s == [] then [""]
    else if s[0] == '/' then [""] + Split(s[1..])
    else
      var r := Split(s[1..]);
      [[s[0]] + r[0]] + r[1..]
  }

  function Join(cs: seq<string>): string
    requires |cs| >= 1
  {
    if |cs| == 1 then cs[0] else cs[0] + "/" + Join(cs[1..])
  }

  predicate ValidComponent(c: string) {
    c != "" && c != "." && c != ".." && '/' !in c && '\0' !in c
  }

  predicate ValidComponents(cs: seq<string>) {
    forall i :: 0 <= i < |cs| ==> ValidComponent(cs[i])
  }

  function Parse(path: string): Result<seq<string>> {
    if path == "" || path[0] != '/' || '\0' in path then Err(InvalidPath)
    else if path == "/" then Ok([])
    else if path[|path| - 1] == '/' then Err(InvalidPath)
    else
      var cs := Split(path[1..]);
      if exists i :: 0 <= i < |cs| && (cs[i] == "" || cs[i] == "." || cs[i] == "..") then Err(InvalidPath)
      else Ok(cs)
  }

  function Render(cs: seq<string>): string {
    if cs == [] then "/" else "/" + Join(cs)
  }

  lemma {:induction false} SplitCharacters(s: string, ch: char)
    requires ch !in s
    ensures forall i :: 0 <= i < |Split(s)| ==> ch !in Split(s)[i]
  {
    if s != [] {
      SplitCharacters(s[1..], ch);
    }
  }

  lemma {:induction false} JoinSplit(s: string)
    ensures Join(Split(s)) == s
  {
    if s != [] {
      JoinSplit(s[1..]);
      var r := Split(s[1..]);
      if s[0] == '/' {
        assert Split(s)[1..] == r;
      } else {
        assert Split(s)[1..] == r[1..];
      }
    }
  }

  lemma {:induction false} SplitPiece(c: string, rest: string)
    requires '/' !in c
    ensures Split(c) == [c]
    ensures Split(c + "/" + rest) == [c] + Split(rest)
  {
    if c == "" {
      assert (c + "/" + rest)[1..] == rest;
    } else {
      SplitPiece(c[1..], rest);
      assert (c + "/" + rest)[1..] == c[1..] + "/" + rest;
      assert c == [c[0]] + c[1..];
    }
  }

  lemma {:induction false} SplitJoin(cs: seq<string>)
    requires |cs| >= 1 && forall i :: 0 <= i < |cs| ==> '/' !in cs[i]
    ensures Split(Join(cs)) == cs
  {
    if |cs| == 1 {
      SplitPiece(cs[0], "");
    } else {
      SplitJoin(cs[1..]);
      SplitPiece(cs[0], Join(cs[1..]));
    }
  }

  lemma {:induction false} JoinCharacters(cs: seq<string>)
    requires |cs| >= 1 && ValidComponents(cs)
    ensures '\0' !in Join(cs) && |Join(cs)| >= 1 && Join(cs)[|Join(cs)| - 1] != '/'
  {
    if |cs| > 1 {
      JoinCharacters(cs[1..]);
    }
  }

  /** Every accepted path is the rendering of its components, which are all valid. */
  lemma RenderParse(path: string)
    requires Parse(path).Ok?
    ensures ValidComponents(Parse(path).value)
    ensures Render(Parse(path).value) == path
  {
    if path != "/" {
      JoinSplit(path[1..]);
      SplitCharacters(path[1..], '\0');
      assert path == "/" + path[1..];
    }
  }

  /** Every list of valid components is the parse of its rendering. */
  lemma ParseRender(cs: seq<string>)
    requires ValidComponents(cs)
    ensures Parse(Render(cs)) == Ok(cs)
  {
    if cs != [] {
      JoinCharacters(cs);
      SplitJoin(cs);
      var path := Render(cs);
      assert path[1..] == Join(cs);
      assert path[|path| - 1] == Join(cs)[|Join(cs)| - 1];
    }
  }
}
