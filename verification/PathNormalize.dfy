/** shred's bundled path module: `..` and `.` resolved from the back, in place, and
    whole path strings normalised. */
module PathNormalize {
  import opened Strings

  // ---------- Both directions ----------

  /** What remains of some path elements: names, with so many steps up before them. */
  datatype Resolved = Resolved(up: nat, names: seq<string>)

  /** One element in front of others, as the loop from the back meets it. */
  function Before(part: string, r: Resolved): Resolved {
    if part == "." then r
    else if part == ".." then r.(up := r.up + 1)
    else if r.up > 0 then r.(up := r.up - 1)
    else r.(names := [part] + r.names)
  }

  function Backwards(parts: seq<string>): Resolved {
    if parts == [] then Resolved(0, []) else Before(parts[0], Backwards(parts[1..]))
  }

  /** One element after others, as a stack machine takes it. */
  function After(r: Resolved, part: string): Resolved {
    if part == "." then r
    else if part != ".." then r.(names := r.names + [part])
    else if r.names == [] then r.(up := r.up + 1)
    else r.(names := r.names[..|r.names| - 1])
  }

  function Forwards(parts: seq<string>): Resolved
    decreases |parts|
  {
    if parts == [] then Resolved(0, []) else After(Forwards(parts[..|parts| - 1]), parts[|parts| - 1])
  }

  lemma Commute(part: string, r: Resolved, last: string)
    ensures Before(part, After(r, last)) == After(Before(part, r), last)
  {
    if part != "." && part != ".." && r.up == 0 {
      assert [part] + (r.names + [last]) == [part] + r.names + [last];
      if r.names != [] {
        assert ([part] + r.names)[..|r.names|] == [part] + r.names[..|r.names| - 1];
      } else {
        assert ([part] + r.names)[..0] == [];
      }
    }
  }

  lemma {:induction false} BackwardsSnoc(parts: seq<string>, last: string)
    ensures Backwards(parts + [last]) == After(Backwards(parts), last)
    decreases |parts|
  {
    hide Before, After;
    if parts == [] {
      assert [] + [last] == [last] && [last][1..] == [];
      BaseStep(last);
    } else {
      assert (parts + [last])[1..] == parts[1..] + [last];
      BackwardsSnoc(parts[1..], last);
      Commute(parts[0], Backwards(parts[1..]), last);
    }
  }

  lemma BaseStep(last: string)
    ensures Before(last, Resolved(0, [])) == After(Resolved(0, []), last)
  {
    assert [last] + [] == [] + [last];
  }

  /** Counting steps up from the back is the forward stack machine. */
  lemma {:induction false} BackwardsIsForwards(parts: seq<string>)
    ensures Backwards(parts) == Forwards(parts)
    decreases |parts|
  {
    hide Before, After;
    if parts != [] {
      var n := |parts| - 1;
      assert parts == parts[..n] + [parts[n]];
      BackwardsIsForwards(parts[..n]);
      BackwardsSnoc(parts[..n], parts[n]);
    }
  }

  // ---------- The result ----------

  predicate Ordinary(part: string) { part != "." && part != ".." }

  predicate AllOrdinary(parts: seq<string>) { forall i :: 0 <= i < |parts| ==> Ordinary(parts[i]) }

  function Ups(n: nat): (r: seq<string>)
    ensures |r| == n && forall i :: 0 <= i < n ==> r[i] == ".."
  {
    if n == 0 then [] else [".."] + Ups(n - 1)
  }

  /** Steps up stay in front when the path may leave the root, and are dropped otherwise. */
  function Parts(r: Resolved, allowAboveRoot: bool): seq<string> {
    (if allowAboveRoot then Ups(r.up) else []) + r.names
  }

  lemma {:induction false} NamesOrdinary(parts: seq<string>)
    ensures AllOrdinary(Backwards(parts).names)
    ensures forall x :: x in Backwards(parts).names ==> x in parts
  {
    if parts != [] {
      NamesOrdinary(parts[1..]);
    }
  }

  lemma {:induction false} OrdinaryStays(parts: seq<string>)
    requires AllOrdinary(parts)
    ensures Backwards(parts) == Resolved(0, parts)
  {
    if parts != [] {
      OrdinaryStays(parts[1..]);
      assert Ordinary(parts[0]);
      assert [parts[0]] + parts[1..] == parts;
    }
  }

  lemma {:induction false} UpsStay(n: nat, names: seq<string>)
    requires AllOrdinary(names)
    ensures Backwards(Ups(n) + names) == Resolved(n, names)
    decreases n
  {
    if n == 0 {
      assert Ups(0) + names == names;
      OrdinaryStays(names);
    } else {
      assert (Ups(n) + names)[1..] == Ups(n - 1) + names;
      UpsStay(n - 1, names);
    }
  }

  /** The result is some `..` followed by ordinary names, and normalising it again changes nothing. */
  lemma NormalizedTwice(parts: seq<string>, allowAboveRoot: bool)
    ensures var once := Parts(Backwards(parts), allowAboveRoot); Parts(Backwards(once), allowAboveRoot) == once
    ensures AllOrdinary(Backwards(parts).names)
  {
    var r := Backwards(parts);
    NamesOrdinary(parts);
    if allowAboveRoot {
      UpsStay(r.up, r.names);
    } else {
      assert [] + r.names == r.names;
      OrdinaryStays(r.names);
    }
  }

  // ---------- Where a path leads ----------

  /** From a directory, given by the names from the root down to it; the root is its own parent. */
  function Enter(dir: seq<string>, part: string): seq<string> {
    if part == "." then dir
    else if part == ".." then (if dir == [] then [] else dir[..|dir| - 1])
    else dir + [part]
  }

  function Walk(dir: seq<string>, parts: seq<string>): seq<string>
    decreases |parts|
  {
    if parts == [] then dir else Enter(Walk(dir, parts[..|parts| - 1]), parts[|parts| - 1])
  }

  /** So many steps up. */
  function Above(dir: seq<string>, up: nat): seq<string> { if up <= |dir| then dir[..|dir| - up] else [] }

  lemma {:induction false} ForwardsWalk(dir: seq<string>, parts: seq<string>)
    ensures Walk(dir, parts) == Above(dir, Forwards(parts).up) + Forwards(parts).names
    decreases |parts|
  {
    if parts != [] {
      var n := |parts| - 1;
      ForwardsWalk(dir, parts[..n]);
      EnterAfter(dir, Forwards(parts[..n]), parts[n]);
    }
  }

  lemma EnterAfter(dir: seq<string>, r: Resolved, part: string)
    ensures Enter(Above(dir, r.up) + r.names, part) == Above(dir, After(r, part).up) + After(r, part).names
  {
    var here := Above(dir, r.up) + r.names;
    if part == ".." {
      if r.names == [] {
        assert here == Above(dir, r.up);
      } else {
        assert here[..|here| - 1] == Above(dir, r.up) + r.names[..|r.names| - 1];
      }
    } else if part != "." {
      assert here + [part] == Above(dir, r.up) + (r.names + [part]);
    }
  }

  /** From every directory the normalised parts lead where the parts led; without steps up in front, from the root. */
  lemma SamePlace(dir: seq<string>, parts: seq<string>, allowAboveRoot: bool)
    requires allowAboveRoot || dir == []
    ensures Walk(dir, Parts(Backwards(parts), allowAboveRoot)) == Walk(dir, parts)
  {
    hide Backwards, Forwards, Walk;
    var r := Backwards(parts);
    NamesOrdinary(parts);
    BackwardsIsForwards(parts);
    ForwardsWalk(dir, parts);
    if allowAboveRoot {
      UpsStay(r.up, r.names);
    } else {
      assert [] + r.names == r.names;
      OrdinaryStays(r.names);
    }
    var once := Parts(r, allowAboveRoot);
    BackwardsIsForwards(once);
    ForwardsWalk(dir, once);
  }

  // ---------- In place ----------

  class PathParts {
    var parts: seq<string>

    constructor (parts: seq<string>)
      ensures this.parts == parts
    {
      this.parts := parts;
    }

    /** `splice(i, 1)`. */
    method Remove(i: nat)
      requires i < |parts|
      modifies this
      ensures parts == old(parts)[..i] + old(parts)[i + 1..]
    {
      parts := parts[..i] + parts[i + 1..];
    }

    /** normalizeArray: from the back, starting past the end. */
    method NormalizeArray(allowAboveRoot: bool)
      modifies this
      ensures parts == Parts(Forwards(old(parts)), allowAboveRoot)
    {
      hide Before, Backwards, Forwards;
      ghost var was := parts;
      var up: nat := 0;
      var i := |parts|;
      NothingReached(was);
      while i >= 0
        invariant -1 <= i <= |was|
        invariant parts == was[..Reached(i, was)] + Backwards(was[Reached(i, was)..]).names
        invariant up == Backwards(was[Reached(i, was)..]).up
        decreases i
      {
        if i < |parts| {
          BackwardsAt(was, i);
          var last := parts[i];
          if last == "." {
            Remove(i);
          } else if last == ".." {
            Remove(i);
            up := up + 1;
          } else if up > 0 {
            Remove(i);
            up := up - 1;
          }
        }
        i := i - 1;
      }
      assert was[0..] == was && was[..0] == [] && [] + Backwards(was).names == Backwards(was).names;
      BackwardsIsForwards(was);
      if allowAboveRoot {
        RestoreUps(up);
      } else {
        assert [] + Backwards(was).names == Backwards(was).names;
      }
    }

    /** `for (; up--; up) parts.unshift('..')`. */
    method RestoreUps(count: nat)
      modifies this
      ensures parts == Ups(count) + old(parts)
    {
      var up := count;
      assert Ups(0) + parts == parts;
      while up > 0
        invariant 0 <= up <= count && parts == Ups(count - up) + old(parts)
      {
        up := up - 1;
        parts := [".."] + parts;
        assert parts == Ups(count - up) + old(parts);
      }
    }
  }

  lemma NothingReached(parts: seq<string>)
    ensures Reached(|parts|, parts) == |parts| && Backwards(parts[|parts|..]) == Resolved(0, [])
    ensures parts == parts[..|parts|] + []
  {
  }

  /** The loop body at index i, when the elements after i are done. */
  lemma BackwardsAt(parts: seq<string>, i: nat)
    requires i < |parts|
    ensures var r, last := Backwards(parts[i + 1..]), parts[i];
            var all := parts[..i + 1] + r.names;
            all[i] == last && all[..i] + all[i + 1..] == parts[..i] + r.names &&
            Backwards(parts[i..]) ==
            (if last == "." then r
             else if last == ".." then Resolved(r.up + 1, r.names)
             else if r.up > 0 then Resolved(r.up - 1, r.names)
             else Resolved(0, [last] + r.names)) &&
            all == parts[..i] + ([last] + r.names)
  {
    assert parts[i..][1..] == parts[i + 1..];
    hide Backwards;
    var r := Backwards(parts[i + 1..]);
    var all := parts[..i + 1] + r.names;
    assert all[..i] == parts[..i] && all[i + 1..] == r.names;
  }

  /** The elements the loop has reached once its index is i: at first none. */
  function Reached(i: int, parts: seq<string>): (k: nat)
    requires -1 <= i <= |parts|
    ensures k <= |parts|
  {
    if i < |parts| then i + 1 else i
  }

  // ---------- Whole paths ----------

  /** `path.split('/')` without the empty pieces. */
  function Components(path: string): seq<string>
    decreases |path|
  {
    if path == "" then []
    else if path[0] == '/' then Components(path[1..])
    else
      var n := PieceLength(path);
      [path[..n]] + Components(path[n..])
  }

  /** Up to the next slash. */
  function PieceLength(path: string): (n: nat)
    ensures n <= |path| && (path != "" && path[0] != '/' ==> n > 0) && '/' !in path[..n]
    ensures n < |path| ==> path[n] == '/'
  {
    if path == "" || path[0] == '/' then 0 else
      var n := 1 + PieceLength(path[1..]);
      assert path[..n] == [path[0]] + path[1..][..n - 1];
      n
  }

  function Normalize(path: string): string {
    var isAbsolute := path != "" && path[0] == '/';
    var trailing := path != "" && path[|path| - 1] == '/';
    var joined := Join(Parts(Backwards(Components(path)), !isAbsolute), "/");
    var named := if joined == "" && !isAbsolute then "." else joined;
    var ended := if named != "" && trailing then named + "/" else named;
    (if isAbsolute then "/" else "") + ended
  }

  predicate Piece(s: string) { s != "" && '/' !in s }

  predicate Pieces(parts: seq<string>) { forall i :: 0 <= i < |parts| ==> Piece(parts[i]) }

  lemma {:induction false} ComponentsArePieces(path: string)
    ensures Pieces(Components(path))
    decreases |path|
  {
    if path != "" {
      if path[0] == '/' {
        ComponentsArePieces(path[1..]);
      } else {
        ComponentsArePieces(path[PieceLength(path)..]);
      }
    }
  }

  lemma {:induction false} PieceLengthIs(piece: string, rest: string)
    requires '/' !in piece && (rest == "" || rest[0] == '/')
    ensures PieceLength(piece + rest) == |piece|
    decreases |piece|
  {
    if piece == "" {
      assert piece + rest == rest;
    } else {
      assert (piece + rest)[1..] == piece[1..] + rest;
      PieceLengthIs(piece[1..], rest);
    }
  }

  lemma PieceFirst(piece: string, rest: string)
    requires Piece(piece) && (rest == "" || rest[0] == '/')
    ensures Components(piece + rest) == [piece] + Components(rest)
  {
    PieceLengthIs(piece, rest);
    assert (piece + rest)[..|piece|] == piece && (piece + rest)[|piece|..] == rest;
    assert (piece + rest)[0] == piece[0];
  }

  lemma SlashFirst(rest: string)
    ensures Components("/" + rest) == Components(rest)
  {
    assert ("/" + rest)[1..] == rest;
  }

  /** Splitting what was joined, with or without a slash at the end, gives the pieces back. */
  lemma {:induction false} ComponentsOfJoin(parts: seq<string>, end: string)
    requires Pieces(parts) && parts != [] && (end == "" || end == "/")
    ensures Components(Join(parts, "/") + end) == parts
    ensures Join(parts, "/") != "" && Join(parts, "/")[0] != '/' && Join(parts, "/")[|Join(parts, "/")| - 1] != '/'
    decreases |parts|
  {
    assert Piece(parts[0]) && Pieces(parts[1..]);
    hide Components, Join, Pieces;
    JoinFirst(parts);
    if |parts| == 1 {
      PieceFirst(parts[0], end);
      SlashEnd(end);
      assert parts == [parts[0]];
    } else {
      ComponentsOfJoin(parts[1..], end);
      var rest := "/" + (Join(parts[1..], "/") + end);
      assert Join(parts, "/") + end == parts[0] + rest;
      PieceFirst(parts[0], rest);
      SlashFirst(Join(parts[1..], "/") + end);
      assert parts == [parts[0]] + parts[1..];
    }
  }

  lemma JoinFirst(parts: seq<string>)
    requires parts != []
    ensures Join(parts, "/") == if |parts| == 1 then parts[0] else parts[0] + "/" + Join(parts[1..], "/")
  {
  }

  lemma SlashEnd(end: string)
    requires end == "" || end == "/"
    ensures Components(end) == []
  {
    if end == "/" {
      assert end[1..] == "";
    }
  }

  lemma {:induction false} BackwardsPieces(parts: seq<string>, allowAboveRoot: bool)
    requires Pieces(parts)
    ensures Pieces(Parts(Backwards(parts), allowAboveRoot))
  {
    NamesOrdinary(parts);
    var r := Backwards(parts);
    forall i | 0 <= i < |Parts(r, allowAboveRoot)|
      ensures Piece(Parts(r, allowAboveRoot)[i])
    {
      var part := Parts(r, allowAboveRoot)[i];
      if part != ".." {
        assert part in r.names;
        assert part in parts;
      }
    }
  }

  /** A path that resolves to nothing normalises to the root, or to the current directory. */
  lemma NothingLeft(path: string)
    ensures Normalize("/") == "/" && Normalize(".") == "." && Normalize("./") == "./"
  {
    SlashEnd("/");
    assert "" + "" == "" && "/" + "" == "/";
    PieceFirst(".", "");
    PieceFirst(".", "/");
    assert "." + "" == "." && "." + "/" == "./";
    assert ["."][1..] == [] && Backwards(["."][1..]) == Resolved(0, []);
    assert Backwards(["."]) == Resolved(0, []);
    assert Backwards([]) == Resolved(0, []);
  }

  lemma Shape(path: string, isAbsolute: bool, ps: seq<string>, trailing: bool)
    requires Pieces(ps) && ps != []
    requires path == (if isAbsolute then "/" else "") + (Join(ps, "/") + if trailing then "/" else "")
    ensures path != "" && (path[0] == '/' <==> isAbsolute) && (path[|path| - 1] == '/' <==> trailing) &&
            Components(path) == ps
  {
    var end := if trailing then "/" else "";
    ComponentsOfJoin(ps, end);
    if isAbsolute {
      SlashFirst(Join(ps, "/") + end);
    } else {
      assert "" + (Join(ps, "/") + end) == Join(ps, "/") + end;
    }
  }

  /** A normalised path, from the parts that are left. */
  function Assemble(isAbsolute: bool, ps: seq<string>, trailing: bool): string {
    if ps == [] then (if isAbsolute then "/" else if trailing then "./" else ".")
    else (if isAbsolute then "/" else "") + (Join(ps, "/") + if trailing then "/" else "")
  }

  function PartsOf(path: string): seq<string> { Parts(Backwards(Components(path)), !IsAbsolute(path)) }

  predicate IsAbsolute(path: string) { path != "" && path[0] == '/' }

  predicate Trailing(path: string) { path != "" && path[|path| - 1] == '/' }

  lemma NormalizeIs(path: string)
    ensures Pieces(PartsOf(path)) && Normalize(path) == Assemble(IsAbsolute(path), PartsOf(path), Trailing(path))
  {
    ComponentsArePieces(path);
    BackwardsPieces(Components(path), !IsAbsolute(path));
    hide Backwards, Components, Parts;
    var ps := PartsOf(path);
    if ps == [] {
      assert "/" + "" == "/" && "" + "." == "." && "" + "./" == "./";
    } else {
      ComponentsOfJoin(ps, "");
      assert Join(ps, "/") + "" == Join(ps, "/");
    }
  }

  /** Normalising a path a second time changes nothing. */
  lemma NormalizeTwice(path: string)
    ensures Normalize(Normalize(path)) == Normalize(path)
  {
    hide Backwards, Components, Parts, Normalize;
    var ps := PartsOf(path);
    NormalizeIs(path);
    if ps == [] {
      NothingLeft(path);
    } else {
      var again := Normalize(path);
      Shape(again, IsAbsolute(path), ps, Trailing(path));
      NormalizedTwice(Components(path), !IsAbsolute(path));
      NormalizeIs(again);
    }
  }

  /** Where a path string leads from a working directory. */
  function Locate(cwd: seq<string>, path: string): seq<string> {
    Walk(if IsAbsolute(path) then [] else cwd, Components(path))
  }

  /** A normalised path leads to the same place from every working directory. */
  lemma NormalizeSamePlace(path: string, cwd: seq<string>)
    ensures Locate(cwd, Normalize(path)) == Locate(cwd, path) && IsAbsolute(Normalize(path)) == IsAbsolute(path)
  {
    hide Backwards, Components, Parts, Normalize, Walk;
    var ps := PartsOf(path);
    NormalizeIs(path);
    SamePlace(if IsAbsolute(path) then [] else cwd, Components(path), !IsAbsolute(path));
    if ps == [] {
      HereOrRoot(cwd);
    } else {
      Shape(Normalize(path), IsAbsolute(path), ps, Trailing(path));
    }
  }

  lemma HereOrRoot(cwd: seq<string>)
    ensures Walk([], Components("/")) == Walk([], []) == []
    ensures Walk(cwd, Components(".")) == Walk(cwd, Components("./")) == Walk(cwd, []) == cwd
  {
    SlashEnd("/");
    SlashEnd("");
    PieceFirst(".", "");
    PieceFirst(".", "/");
    assert "." + "" == "." && "." + "/" == "./" && ["."] + [] == ["."];
    assert ["."][..0] == [];
  }
}
