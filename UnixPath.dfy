/** java.nio.file paths on a Unix file system ('/' separators), as name sequences. */
module UnixPath {
  import opened Wrappers
  import opened JavaText

  /** A parsed path: whether it starts at '/', and its name elements. */
  datatype FsPath = FsPath(absolute: bool, names: seq<string>)

  /** The name elements of a path string: the non-empty pieces between '/'. */
  function Names(ps: seq<string>): (r: seq<string>)
    ensures forall i :: 0 <= i < |r| ==> r[i] != ""
  {
    if ps == [] then []
    else Names(ps[..|ps| - 1]) + (if ps[|ps| - 1] == "" then [] else [ps[|ps| - 1]])
  }

  /** Pieces that are all non-empty are all names. */
  lemma {:induction false} NamesNonEmpty(ps: seq<string>)
    requires forall i :: 0 <= i < |ps| ==> ps[i] != ""
    ensures Names(ps) == ps
  {
    if ps != [] {
      NamesNonEmpty(ps[..|ps| - 1]);
      assert ps[..|ps| - 1] + [ps[|ps| - 1]] == ps;
    }
  }

  function ParsePath(s: string): FsPath
  {
    FsPath(s != [] && s[0] == '/', Names(Pieces(s, '/')))
  }

  /** Path.toString(): a leading '/' for an absolute path, then the names joined by '/'. */
  function PathText(p: FsPath): string
  {
    (if p.absolute then "/" else "") + Join(p.names, "/")
  }

  /** A leading empty piece adds no name. */
  lemma {:induction false} NamesLeadingEmpty(ps: seq<string>)
    ensures Names([""] + ps) == Names(ps)
  {
    if ps != [] {
      var k := |ps| - 1;
      NamesLeadingEmpty(ps[..k]);
      assert ([""] + ps)[..k + 1] == [""] + ps[..k];
    }
  }

  /** A path's text parses back to the path when its names are non-empty and hold no '/'. */
  lemma PathTextParses(p: FsPath)
    requires p.names != [] && forall i :: 0 <= i < |p.names| ==> p.names[i] != "" && '/' !in p.names[i]
    ensures ParsePath(PathText(p)) == p
  {
    var j := Join(p.names, "/");
    PiecesJoin(p.names, '/');
    NamesNonEmpty(p.names);
    assert j[0] == p.names[0][0] by {
      if |p.names| > 1 {
        assert j == p.names[0] + "/" + Join(p.names[1..], "/");
      }
    }
    assert p.names[0][0] in p.names[0];
    if p.absolute {
      assert PathText(p) == ['/'] + j;
      PiecesCons('/', j, '/');
      NamesLeadingEmpty(Pieces(j, '/'));
      assert Pieces(PathText(p), '/') == [""] + p.names;
    } else {
      assert PathText(p) == j && j != [] && j[0] != '/';
      assert Pieces(PathText(p), '/') == p.names;
    }
  }

  /** Paths.get ignores a trailing '/': a non-empty path string parses the same without it. */
  lemma TrailingSlashIgnored(s: string)
    requires s != []
    ensures ParsePath(s + "/") == ParsePath(s)
  {
    PiecesSnocDelim(s, '/');
    var ps := Pieces(s, '/');
    assert (ps + [""])[..|ps|] == ps;
  }

  predicate PlainName(n: string) { n != "" && n != "." && n != ".." }

  /** Path.normalize() of an absolute path: "." dropped, ".." removes the name before it, if any. */
  function Normalize(names: seq<string>): (r: seq<string>)
    ensures forall i :: 0 <= i < |r| ==> PlainName(r[i])
  {
    if names == [] then []
    else
      var n := Normalize(names[..|names| - 1]);
      var x := names[|names| - 1];
      if x == "" || x == "." then n
      else if x == ".." then (if n == [] then [] else n[..|n| - 1])
      else n + [x]
  }

  /** Path.resolve: an absolute argument replaces the base, a relative one is appended. */
  function Resolve(base: seq<string>, p: FsPath): seq<string>
  {
    if p.absolute then p.names else base + p.names
  }

  /** The same resolution on whole paths: an empty argument gives back the base. */
  function ResolvePath(base: FsPath, p: FsPath): (r: FsPath)
    ensures p.absolute ==> r == p
    ensures !p.absolute ==> r.absolute == base.absolute && r.names == base.names + p.names
  {
    if p.absolute then p else FsPath(base.absolute, Resolve(base.names, p))
  }

  /** Path.getFileName(): the last name element, null (None) for a path without one. */
  function FileName(p: FsPath): (r: Option<string>)
    ensures r.Some? <==> p.names != []
    ensures r.Some? ==> r.value == p.names[|p.names| - 1]
  {
    if p.names == [] then None else Some(p.names[|p.names| - 1])
  }

  /** Path.getParent(): all but the last name; null for a relative one-name path and for the root. */
  function Parent(p: FsPath): (r: Option<FsPath>)
    ensures r.Some? <==> |p.names| > 1 || (|p.names| == 1 && p.absolute)
    ensures r.Some? ==> r.value.absolute == p.absolute && r.value.names + [p.names[|p.names| - 1]] == p.names
  {
    if |p.names| > 1 || (|p.names| == 1 && p.absolute) then Some(FsPath(p.absolute, p.names[..|p.names| - 1]))
    else None
  }

  lemma {:induction false} NormalizeIdempotent(names: seq<string>)
    ensures Normalize(Normalize(names)) == Normalize(names)
  {
    NormalizePlain(Normalize(names));
  }

  /** A trailing ".." removes the last name of the normal form, if there is one. */
  lemma NormalizeParent(names: seq<string>)
    ensures var n := Normalize(names);
            Normalize(names + [".."]) == if n == [] then [] else n[..|n| - 1]
  {
    assert (names + [".."])[..|names|] == names;
  }

  /** A path of plain names is already normal. */
  lemma {:induction false} NormalizePlain(names: seq<string>)
    requires forall i :: 0 <= i < |names| ==> PlainName(names[i])
    ensures Normalize(names) == names
  {
    if names != [] {
      NormalizePlain(names[..|names| - 1]);
    }
  }

  /** Appending plain names to a normal path appends them to its normal form. */
  lemma {:induction false} NormalizeAppendPlain(base: seq<string>, names: seq<string>)
    requires forall i :: 0 <= i < |names| ==> PlainName(names[i])
    ensures Normalize(base + names) == Normalize(base) + names
  {
    if names == [] {
      assert base + names == base;
    } else {
      var init := names[..|names| - 1];
      var x := names[|names| - 1];
      assert (base + names)[..|base + names| - 1] == base + init;
      assert (base + names)[|base + names| - 1] == x;
      assert PlainName(x);
      NormalizeAppendPlain(base, init);
      assert Normalize(base + names) == Normalize(base + init) + [x];
      assert Normalize(base) + init + [x] == Normalize(base) + names;
    }
  }

}
