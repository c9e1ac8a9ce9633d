/**
 file_util::mkdir of easyrpc/base/file_util.hpp on an abstract file system: the set of directories
 that exist.  The system resolves a path to a directory, so doubled and trailing separators make
 no difference to it; the code cuts the path as a string, at '\' as well as at '/'.
 */
module FileUtil {
  import opened StringUtil

  predicate IsSeparator(c: char) { c == '/' || c == '\\' }

  /** `q` is `path` itself, or `path` cut before one of its separators other than the first character. */
  predicate IsPrefix(q: string, path: string) {
    && 0 < |q| <= |path| && path[..|q|] == q
    && (|q| == |path| || IsSeparator(path[|q|]))
  }

  // ---- directories ----

  /** A directory by its names from the root or from the working directory, both of which always exist. */
  datatype Dir = Dir(absolute: bool, names: seq<string>)

  /** The names in a path: its maximal runs without '/'. */
  function Names(path: string): (r: seq<string>)
    ensures path != "" && path[|path| - 1] != '/' ==> r != []
  {
    if path == "" then []
    else
      var c, before := path[|path| - 1], Names(path[..|path| - 1]);
      if c == '/' then before
      else if |path| > 1 && path[|path| - 2] != '/' then before[|before| - 1 := before[|before| - 1] + [c]]
      else before + [[c]]
  }

  /** What the system makes of a path, of which it sees the C string. */
  function Resolve(path: string): Dir { Dir(path != "" && path[0] == '/', Names(UpToNul(path))) }

  function Parent(d: Dir): Dir
    requires d.names != []
  {
    d.(names := d.names[..|d.names| - 1])
  }

  predicate Exists(dirs: set<Dir>, d: Dir) { d.names == [] || d in dirs }

  /** access finds the path: the empty C string names nothing. */
  predicate Found(dirs: set<Dir>, path: string) { UpToNul(path) != "" && Exists(dirs, Resolve(path)) }

  ghost predicate ParentsExist(dirs: set<Dir>) {
    forall d :: d in dirs ==> d.names != [] && Exists(dirs, Parent(d))
  }

  /** Every prefix of `path` is there or may be created. */
  ghost predicate Creatable(dirs: set<Dir>, path: string, allowed: Dir -> bool) {
    forall q :: IsPrefix(q, path) ==> Found(dirs, q) || (UpToNul(q) != "" && allowed(Resolve(q)))
  }

  ghost predicate PrefixOf(d: Dir, path: string) {
    exists q :: IsPrefix(q, path) && Resolve(q) == d
  }

  // ---- the names in a path are its runs without '/' ----

  lemma {:induction false} WeaveGap(gaps: seq<string>, tokens: seq<string>, x: string)
    requires |gaps| == |tokens| + 1
    ensures Weave(gaps[|tokens| := gaps[|tokens|] + x], tokens) == Weave(gaps, tokens) + x
  {
    if tokens != [] {
      var longer := gaps[|tokens| := gaps[|tokens|] + x];
      assert longer[1..] == gaps[1..][|tokens| - 1 := gaps[1..][|tokens| - 1] + x];
      WeaveGap(gaps[1..], tokens[1..], x);
      assert gaps[0] + tokens[0] + (Weave(gaps[1..], tokens[1..]) + x) == Weave(gaps, tokens) + x;
    }
  }

  lemma {:induction false} WeaveToken(gaps: seq<string>, tokens: seq<string>, x: string)
    requires |gaps| == |tokens| + 1
    ensures Weave(gaps + [""], tokens + [x]) == Weave(gaps, tokens) + x
  {
    if tokens == [] {
      assert (gaps + [""])[1..] == [""] && (tokens + [x])[1..] == [];
      assert gaps[0] + x + "" == gaps[0] + x;
    } else {
      assert (gaps + [""])[1..] == gaps[1..] + [""] && (tokens + [x])[1..] == tokens[1..] + [x];
      WeaveToken(gaps[1..], tokens[1..], x);
      assert gaps[0] + tokens[0] + (Weave(gaps[1..], tokens[1..]) + x) == Weave(gaps, tokens) + x;
    }
  }

  lemma {:induction false} WeaveLonger(gaps: seq<string>, tokens: seq<string>, x: string)
    requires |gaps| == |tokens| + 1 && tokens != [] && gaps[|tokens|] == ""
    ensures Weave(gaps, tokens[|tokens| - 1 := tokens[|tokens| - 1] + x]) == Weave(gaps, tokens) + x
  {
    var longer := tokens[|tokens| - 1 := tokens[|tokens| - 1] + x];
    if |tokens| == 1 {
      assert longer[1..] == [] && tokens[1..] == [];
      assert gaps[0] + (tokens[0] + x) + "" == gaps[0] + tokens[0] + "" + x;
    } else {
      assert longer[1..] == tokens[1..][|tokens| - 2 := tokens[1..][|tokens| - 2] + x];
      WeaveLonger(gaps[1..], tokens[1..], x);
      assert gaps[0] + tokens[0] + (Weave(gaps[1..], tokens[1..]) + x) == Weave(gaps, tokens) + x;
    }
  }

  /** Cutting `s` and then one character more. */
  ghost predicate CutsOn(s: string, gaps: seq<string>, tokens: seq<string>) {
    Cuts(s, "/", gaps, tokens) && (gaps[|gaps| - 1] == "" <==> s == "" || s[|s| - 1] != '/')
  }

  lemma CutsSlash(s: string, gaps: seq<string>, tokens: seq<string>)
    requires CutsOn(s, gaps, tokens)
    ensures CutsOn(s + "/", gaps[|tokens| := gaps[|tokens|] + "/"], tokens)
  {
    WeaveGap(gaps, tokens, "/");
  }

  lemma CutsLonger(s: string, gaps: seq<string>, tokens: seq<string>, c: char)
    requires CutsOn(s, gaps, tokens) && tokens != [] && s != "" && s[|s| - 1] != '/' && c != '/'
    ensures CutsOn(s + [c], gaps, tokens[|tokens| - 1 := tokens[|tokens| - 1] + [c]])
  {
    WeaveLonger(gaps, tokens, [c]);
  }

  lemma CutsToken(s: string, gaps: seq<string>, tokens: seq<string>, c: char)
    requires CutsOn(s, gaps, tokens) && (s == "" || s[|s| - 1] == '/') && c != '/'
    requires s == "" ==> tokens == []
    ensures CutsOn(s + [c], gaps + [""], tokens + [[c]])
  {
    WeaveToken(gaps, tokens, [c]);
  }

  lemma {:induction false} NamesCut(path: string) returns (gaps: seq<string>)
    ensures CutsOn(path, gaps, Names(path))
  {
    if path == "" {
      gaps := [""];
    } else {
      var before, c := path[..|path| - 1], path[|path| - 1];
      gaps := NamesCut(before);
      var tokens, n := Names(before), |Names(before)|;
      assert before + [c] == path;
      if c == '/' {
        CutsSlash(before, gaps, tokens);
        gaps := gaps[n := gaps[n] + "/"];
      } else if |path| > 1 && path[|path| - 2] != '/' {
        CutsLonger(before, gaps, tokens, c);
      } else {
        CutsToken(before, gaps, tokens, c);
        gaps := gaps + [""];
      }
    }
  }

  /** Two paths name the same directory exactly if their names are the same, up to the first NUL, and both or neither start with '/'. */
  lemma SameDirectoryIff(p: string, q: string)
    ensures Resolve(p) == Resolve(q) <==>
            && Tokens(UpToNul(p), "/") == Tokens(UpToNul(q), "/")
            && ((p != "" && p[0] == '/') <==> (q != "" && q[0] == '/'))
  {
    var gaps := NamesCut(UpToNul(p));
    TokensUnique(UpToNul(p), "/", gaps, Names(UpToNul(p)));
    gaps := NamesCut(UpToNul(q));
    TokensUnique(UpToNul(q), "/", gaps, Names(UpToNul(q)));
  }

  class FileSystem {
    var dirs: set<Dir>

    constructor ()
      ensures dirs == {}
    {
      dirs := {};
    }

    method IsExists(path: string) returns (r: bool)
      ensures r == Found(dirs, path)
    {
      r := Found(dirs, path);
    }

    /** ::mkdir fails on a path that exists and on one whose parent does not; otherwise the environment decides. */
    method SysMkdir(path: string, allowed: Dir -> bool) returns (ok: bool)
      modifies this
      ensures var d := Resolve(path);
              && (ok <==> UpToNul(path) != "" && !Exists(old(dirs), d) && Exists(old(dirs), Parent(d)) && allowed(d))
              && dirs == if ok then old(dirs) + {d} else old(dirs)
    {
      var d := Resolve(path);
      ok := UpToNul(path) != "" && !Exists(dirs, d) && Exists(dirs, Parent(d)) && allowed(d);
      if ok {
        dirs := dirs + {d};
      }
    }

    /**
     133-176.  True exactly when the path is nonempty and exists already or all its missing prefixes
     may be created; a parent is never missing when its child is created; only prefixes of the path
     are created, nothing is removed, and parents exist even after a failure.
     */
    method Mkdir(path: string, allowed: Dir -> bool) returns (ok: bool)
      requires ParentsExist(dirs)
      modifies this
      ensures ok <==> path != "" && (Found(old(dirs), path) || Creatable(old(dirs), path, allowed))
      ensures ok ==> Found(dirs, path)
      ensures ok && !Found(old(dirs), path) ==>
                forall i :: 0 < i < |path| && (path[i] == '/' || path[i] == '\\') ==> Found(dirs, path[..i])
      ensures ok && !Found(old(dirs), path) ==> forall q :: IsPrefix(q, path) ==> Found(dirs, q)
      ensures old(dirs) <= dirs && ParentsExist(dirs)
      ensures forall d :: d in dirs - old(dirs) ==> PrefixOf(d, path) && allowed(d)
      ensures Found(old(dirs), path) ==> dirs == old(dirs)
    {
      if path == "" {
        return false;
      }
      var present := IsExists(path);
      if present {
        return true;
      }
      var dirPath := path;
      var last := dirPath[|dirPath| - 1];
      if last != '/' || last != '\\' {  // true of every character
        dirPath := dirPath + "/";
      }
      var i := 0;
      while i < |dirPath|
        invariant i <= |dirPath| && dirPath == path + "/"
        invariant Progress(old(dirs), dirs, path, i, allowed)
      {
        if IsSeparator(dirPath[i]) && i != 0 {
          var tempPath := dirPath[..i];
          CutIsPrefix(path, i);
          var there := IsExists(tempPath);
          if !there {
            MayBeMade(old(dirs), dirs, path, tempPath, allowed);
            var made := SysMkdir(tempPath, allowed);
            if !made {
              return false;
            }
          }
        }
        NextPrefix(path, i);
        i := i + 1;
      }
      assert IsPrefix(path, path);
      CutsAreFound(dirs, path);
      ok := true;
    }
  }

  lemma CutsAreFound(dirs: set<Dir>, path: string)
    requires forall q :: IsPrefix(q, path) && |q| <= |path| ==> Found(dirs, q)
    ensures forall i :: 0 < i < |path| && (path[i] == '/' || path[i] == '\\') ==> Found(dirs, path[..i])
  {
    forall i | 0 < i < |path| && (path[i] == '/' || path[i] == '\\') ensures Found(dirs, path[..i]) {
      assert IsPrefix(path[..i], path);
    }
  }

  /** Every prefix shorter than `i` is there, and nothing but prefixes was created. */
  ghost predicate Progress(before: set<Dir>, now: set<Dir>, path: string, i: nat, allowed: Dir -> bool) {
    && before <= now && ParentsExist(now)
    && (forall d :: d in now - before ==> PrefixOf(d, path) && allowed(d))
    && forall q :: IsPrefix(q, path) && |q| < i ==> Found(now, q)
  }

  /** The next prefix is missing: either it may be created, which is progress, or the path cannot be. */
  lemma MayBeMade(before: set<Dir>, now: set<Dir>, path: string, temp: string, allowed: Dir -> bool)
    requires Progress(before, now, path, |temp|, allowed) && IsPrefix(temp, path) && !Found(now, temp)
    ensures var d := Resolve(temp);
            if UpToNul(temp) != "" && allowed(d)
            then !Exists(now, d) && Exists(now, Parent(d))
                 && Progress(before, now + {d}, path, |temp|, allowed) && Found(now + {d}, temp)
            else !Creatable(before, path, allowed)
  {
    var d := Resolve(temp);
    if UpToNul(temp) != "" && allowed(d) {
      ParentIsThere(now, temp, path);
      assert PrefixOf(d, path);
    } else {
      assert !Found(before, temp);
    }
  }

  lemma CutIsPrefix(path: string, i: nat)
    requires path != "" && 0 < i <= |path| && IsSeparator((path + "/")[i])
    ensures (path + "/")[..i] == path[..i] && IsPrefix(path[..i], path)
  {
  }

  lemma NextPrefix(path: string, i: nat)
    ensures forall q :: IsPrefix(q, path) && |q| == i ==> q == path[..i] && (i == |path| || IsSeparator(path[i]))
  {
  }

  /** The parent of what a C string resolves to is what one of its shorter prefixes resolves to, or always exists. */
  lemma {:induction false} ParentIsPrefix(path: string) returns (q: string)
    requires NUL !in path && Names(path) != []
    ensures var parent := Parent(Resolve(path));
            parent.names == [] || (IsPrefix(q, path) && |q| < |path| && Resolve(q) == parent && NUL !in q)
  {
    q := "";
    var shorter := path[..|path| - 1];
    if path[|path| - 1] == '/' || (|path| > 1 && path[|path| - 2] != '/') {
      q := ParentIsPrefix(shorter);
    } else if |path| > 2 {
      q := path[..|path| - 2];
      assert shorter[..|shorter| - 1] == q;
      assert path[|q|] == '/';
    }
  }

  lemma ParentIsThere(dirs: set<Dir>, temp: string, path: string)
    requires IsPrefix(temp, path) && UpToNul(temp) != "" && !Exists(dirs, Resolve(temp))
    requires forall q :: IsPrefix(q, path) && |q| < |temp| ==> Found(dirs, q)
    ensures Exists(dirs, Parent(Resolve(temp)))
  {
    var seen := UpToNul(temp);
    var q := ParentIsPrefix(seen);
    if Parent(Resolve(temp)).names != [] {
      assert seen[|q|] == temp[|q|] && seen[..|q|] == temp[..|q|];
      PrefixOfPrefix(q, temp, path);
    }
  }

  lemma PrefixOfPrefix(q: string, temp: string, path: string)
    requires IsPrefix(q, temp) && IsPrefix(temp, path) && |q| < |temp|
    ensures IsPrefix(q, path)
  {
    assert path[..|temp|][..|q|] == path[..|q|];
    assert temp[|q|] == path[..|temp|][|q|] == path[|q|];
  }

  /** A second call right after a successful one succeeds and changes nothing. */
  method MkdirTwice(fs: FileSystem, path: string, allowed: Dir -> bool)
    returns (first: bool, second: bool, ghost between: set<Dir>)
    requires ParentsExist(fs.dirs)
    modifies fs
    ensures first ==> second && Found(between, path) && fs.dirs == between
  {
    first := fs.Mkdir(path, allowed);
    between := fs.dirs;
    second := fs.Mkdir(path, allowed);
  }
}
