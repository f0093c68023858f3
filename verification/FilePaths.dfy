/** Slash-separated paths as Go's filepath.Join builds them: the elements are joined and the result
    is cleaned, part by part. */
module FilePaths {

  /** A cleaned path: whether it starts at the root, and its parts. */
  datatype Path = Path(rooted: bool, parts: seq<string>)

  /** The pieces of a string between its slashes. */
  function Pieces(s: string): (ps: seq<string>)
    ensures |ps| >= 1
  {
    if s == "" then [""]
    else
      var rest := Pieces(s[1..]);
      if s[0] == '/' then [""] + rest else [[s[0]] + rest[0]] + rest[1..]
  }

  /** Empty parts and dots vanish, two dots take back the part before them. */
  function Push(before: seq<string>, part: string, rooted: bool): seq<string> {
    if part == "" || part == "." then before
    else if part == ".." then
      if before != [] && before[|before| - 1] != ".." then before[..|before| - 1]
      else if rooted then before
      else before + [".."]
    else before + [part]
  }

  function PushAll(before: seq<string>, parts: seq<string>, rooted: bool): seq<string>
    decreases |parts|
  {
    if parts == [] then before else PushAll(Push(before, parts[0], rooted), parts[1..], rooted)
  }

  function Add(path: Path, element: string): Path {
    Path(path.rooted, PushAll(path.parts, Pieces(element), path.rooted))
  }

  /** Joining and cleaning, one element after the other. */
  function Join(root: string, rest: seq<string>): Path {
    if rest == [] then Add(Path(root != "" && root[0] == '/', []), root)
    else Add(Join(root, rest[..|rest| - 1]), rest[|rest| - 1])
  }

  lemma JoinAppend(root: string, rest: seq<string>, element: string)
    ensures Join(root, rest + [element]) == Add(Join(root, rest), element)
  {
    assert (rest + [element])[..|rest|] == rest;
  }

  predicate Plain(s: string) {
    '/' !in s
  }

  lemma {:induction false} PlainPieces(s: string)
    requires Plain(s)
    ensures Pieces(s) == [s]
  {
    if s != "" {
      assert forall c :: c in s[1..] ==> c in s;
      PlainPieces(s[1..]);
      assert [s[0]] + s[1..] == s;
    }
  }

  lemma PushOne(before: seq<string>, part: string, rooted: bool)
    ensures PushAll(before, [part], rooted) == Push(before, part, rooted)
  {
    assert [part][1..] == [];
  }

  /** A plain last element that is no run of dots is the last part of the path. */
  lemma PlainLast(root: string, rest: seq<string>, last: string)
    requires Plain(last) && |last| > 2
    ensures Join(root, rest + [last]).rooted == Join(root, rest).rooted
    ensures Join(root, rest + [last]).parts == Join(root, rest).parts + [last]
  {
    JoinAppend(root, rest, last);
    PlainPieces(last);
    PushOne(Join(root, rest).parts, last, Join(root, rest).rooted);
  }

  /** Plain elements are the parts of the path, one by one. */
  lemma {:induction false} PlainElements(root: string, rest: seq<string>)
    requires forall i :: 0 <= i < |rest| ==> Plain(rest[i]) && |rest[i]| > 2
    ensures Join(root, rest).parts == Join(root, []).parts + rest
    decreases |rest|
  {
    if rest != [] {
      var n := |rest| - 1;
      PlainElements(root, rest[..n]);
      PlainLast(root, rest[..n], rest[n]);
      assert rest[..n] + [rest[n]] == rest;
    }
  }

  /** An element that goes down and back up again leaves no trace. */
  lemma DownAndUp(root: string, rest: seq<string>, last: string)
    requires Plain(last)
    ensures Join(root, rest + ["x/../" + last]) == Join(root, rest + [last])
  {
    DetourPieces(last);
    Detour(Join(root, rest), "x/../" + last, "x", "..", last);
    JoinAppend(root, rest, "x/../" + last);
    JoinAppend(root, rest, last);
  }

  lemma Detour(path: Path, element: string, down: string, up: string, last: string)
    requires Plain(last) && Pieces(element) == [down, up, last]
    requires down !in {"", ".", ".."} && up == ".."
    ensures Add(path, element) == Add(path, last)
  {
    PlainPieces(last);
    PushDetour(path.parts, down, up, path.rooted);
    PushAllDetour(path.parts, down, up, last, path.rooted);
  }

  lemma PushDetour(before: seq<string>, down: string, up: string, rooted: bool)
    requires down !in {"", ".", ".."} && up == ".."
    ensures Push(Push(before, down, rooted), up, rooted) == before
  {
  }

  lemma PushAllDetour(before: seq<string>, down: string, up: string, last: string, rooted: bool)
    requires Push(Push(before, down, rooted), up, rooted) == before
    ensures PushAll(before, [down, up, last], rooted) == PushAll(before, [last], rooted)
  {
    assert [down, up, last][1..] == [up, last] && [up, last][1..] == [last];
  }

  lemma PiecesPrepend(c: char, s: string)
    ensures Pieces([c] + s) == if c == '/' then [""] + Pieces(s) else [[c] + Pieces(s)[0]] + Pieces(s)[1..]
  {
    assert ([c] + s)[1..] == s;
  }

  lemma DetourPieces(last: string)
    requires Plain(last)
    ensures Pieces("x/../" + last) == ["x", "..", last]
  {
    DotsPieces(last);
    PiecesPrepend('/', "../" + last);
    assert ['/'] + ("../" + last) == "/../" + last;
    PiecesPrepend('x', "/../" + last);
    assert ['x'] + ("/../" + last) == "x/../" + last && ['x'] + "" == "x";
  }

  lemma DotsPieces(last: string)
    requires Plain(last)
    ensures Pieces("../" + last) == ["..", last]
  {
    PlainPieces(last);
    assert ['.'] + "" == "." && ['.'] + "." == "..";
    PiecesPrepend('/', last);
    assert ['/'] + last == "/" + last && Pieces("/" + last) == ["", last];
    PiecesPrepend('.', "/" + last);
    assert Pieces(['.'] + ("/" + last)) == [".", last];
    PiecesPrepend('.', "./" + last);
    assert ['.'] + ("/" + last) == "./" + last;
    assert Pieces(['.'] + ("./" + last)) == ["..", last];
    assert ['.'] + ("./" + last) == "../" + last;
  }
}
