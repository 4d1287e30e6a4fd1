/**
 * The short file label of a log line: the last non-empty `/`-separated
 * segment of the caller's file path, or the whole path when it has none
 * (`file.split(separator: "/").last ?? file`; Swift's `split` omits empty
 * segments).
 */
module FilePath {
  import opened Strings

  predicate AllSlashes(s: string) {
    forall i :: 0 <= i < |s| ==> s[i] == '/'
  }

  /** The pieces of `s` between `/` separators, empty ones included. */
  function Pieces(s: string): (ps: seq<string>)
    ensures |ps| > 0
    decreases |s|
  {
    if |s| == 0 then [""]
    else
      var init := Pieces(s[..|s| - 1]);
      var c := s[|s| - 1];
      if c == '/' then init + [""]
      else init[..|init| - 1] + [init[|init| - 1] + [c]]
  }

  /** The non-empty elements of `ps`, in order. */
  function NonEmpty(ps: seq<string>): seq<string>
    decreases |ps|
  {
    if |ps| == 0 then []
    else NonEmpty(ps[..|ps| - 1]) + (if ps[|ps| - 1] == "" then [] else [ps[|ps| - 1]])
  }

  /** `s.split(separator: "/")`: the non-empty pieces. */
  function Segments(s: string): seq<string> {
    NonEmpty(Pieces(s))
  }

  /** `file` is `p + r + q` where `r` is a maximal run of characters other
      than `/` followed only by slashes: `p` is empty or ends in `/`. */
  predicate LastRunAt(file: string, p: string, r: string, q: string) {
    && file == p + r + q
    && r != "" && '/' !in r
    && AllSlashes(q)
    && (p == "" || p[|p| - 1] == '/')
  }

  /** The short file label. */
  function ShortFile(file: string): string {
    var segs := Segments(file);
    if |segs| == 0 then file else segs[|segs| - 1]
  }

  /** Joining the pieces with `/` gives back the path. */
  lemma {:induction false} PiecesJoin(s: string)
    ensures Join(Pieces(s), "/") == s
    decreases |s|
  {
    if |s| > 0 {
      var s', c := s[..|s| - 1], s[|s| - 1];
      var init := Pieces(s');
      PiecesJoin(s');
      assert s == s' + [c];
      if c == '/' {
        JoinAppend(init, "", "/");
      } else {
        var pre, last := init[..|init| - 1], init[|init| - 1];
        assert init == pre + [last];
        if |pre| == 0 {
          assert Pieces(s) == [last + [c]];
        } else {
          JoinAppend(pre, last, "/");
          JoinAppend(pre, last + [c], "/");
        }
      }
    }
  }

  /** No piece contains a `/`. */
  lemma {:induction false} PiecesHaveNoSlash(s: string)
    ensures forall i :: 0 <= i < |Pieces(s)| ==> '/' !in Pieces(s)[i]
    decreases |s|
  {
    if |s| > 0 {
      PiecesHaveNoSlash(s[..|s| - 1]);
    }
  }

  /** The last piece is the longest suffix without `/`: what precedes it is
      empty or ends in `/`. */
  lemma {:induction false} LastPieceIsSuffix(s: string)
    ensures
      var ps := Pieces(s);
      exists p :: s == p + ps[|ps| - 1] && (p == "" || p[|p| - 1] == '/')
    decreases |s|
  {
    var ps := Pieces(s);
    if |s| == 0 {
      assert s == "" + ps[|ps| - 1];
    } else {
      var s', c := s[..|s| - 1], s[|s| - 1];
      assert s == s' + [c];
      if c == '/' {
        assert s == s + ps[|ps| - 1];
      } else {
        LastPieceIsSuffix(s');
        var init := Pieces(s');
        var p :| s' == p + init[|init| - 1] && (p == "" || p[|p| - 1] == '/');
        assert s == p + ps[|ps| - 1];
      }
    }
  }

  /** A path without `/` is a single piece. */
  lemma {:induction false} PiecesWithoutSlash(s: string)
    requires '/' !in s
    ensures Pieces(s) == [s]
    decreases |s|
  {
    if |s| > 0 {
      var s' := s[..|s| - 1];
      PiecesWithoutSlash(s');
      assert s == s' + [s[|s| - 1]];
    }
  }

  /** A path ending in `/` has the segments of the path without it. */
  lemma SegmentsDropSlash(s: string)
    requires |s| > 0 && s[|s| - 1] == '/'
    ensures Segments(s) == Segments(s[..|s| - 1])
  {
    var ps := Pieces(s);
    assert ps[..|ps| - 1] == Pieces(s[..|s| - 1]);
  }

  /** A path ending in another character has its last piece as last segment. */
  lemma SegmentsEndInLastPiece(s: string)
    requires |s| > 0 && s[|s| - 1] != '/'
    ensures |Segments(s)| > 0
    ensures Segments(s)[|Segments(s)| - 1] == Pieces(s)[|Pieces(s)| - 1]
  {
  }

  /** There is no non-empty segment exactly when the path is all slashes
      (the empty path included). */
  lemma {:induction false} NoSegmentsIffAllSlashes(s: string)
    ensures |Segments(s)| == 0 <==> AllSlashes(s)
    decreases |s|
  {
    if |s| > 0 {
      var s' := s[..|s| - 1];
      if s[|s| - 1] == '/' {
        SegmentsDropSlash(s);
        NoSegmentsIffAllSlashes(s');
        assert AllSlashes(s') ==> AllSlashes(s);
      } else {
        SegmentsEndInLastPiece(s);
      }
    }
  }

  /** A path with no non-empty segment (such as `""` or `"///"`) is its own
      label. */
  lemma ShortFileAllSlashes(file: string)
    requires AllSlashes(file)
    ensures ShortFile(file) == file
  {
    NoSegmentsIffAllSlashes(file);
  }

  /** A path without `/` is its own label. */
  lemma ShortFileWithoutSlash(file: string)
    requires '/' !in file
    ensures ShortFile(file) == file
  {
    PiecesWithoutSlash(file);
  }

  /** Otherwise the label is the last maximal run of characters other than
      `/`: non-empty, free of `/`, followed only by slashes and preceded by
      nothing or by a slash. */
  lemma {:induction false} ShortFileIsLastRun(file: string)
    requires !AllSlashes(file)
    ensures exists p, q :: LastRunAt(file, p, ShortFile(file), q)
    decreases |file|
  {
    var r := ShortFile(file);
    if file[|file| - 1] == '/' {
      var s' := file[..|file| - 1];
      assert file == s' + "/";
      assert !AllSlashes(s');
      assert r == ShortFile(s') by {
        SegmentsDropSlash(file);
        NoSegmentsIffAllSlashes(s');
      }
      ShortFileIsLastRun(s');
      var p, q :| LastRunAt(s', p, r, q);
      LastRunThroughSlash(s', p, r, q);
    } else {
      ShortFileEndingInRun(file);
      var p :| file == p + r && (p == "" || p[|p| - 1] == '/');
      assert LastRunAt(file, p, r, "");
    }
  }

  /** A slash after the path leaves its last run where it was. */
  lemma LastRunThroughSlash(file: string, p: string, r: string, q: string)
    requires LastRunAt(file, p, r, q)
    ensures LastRunAt(file + "/", p, r, q + "/")
  {
    assert file + "/" == p + r + (q + "/");
    assert AllSlashes(q + "/") by {
      assert forall i :: 0 <= i < |q| ==> (q + "/")[i] == q[i];
    }
  }

  /** The case of ShortFileIsLastRun where the path does not end in `/`. */
  lemma ShortFileEndingInRun(file: string)
    requires |file| > 0 && file[|file| - 1] != '/'
    ensures var r := ShortFile(file);
      && r != "" && '/' !in r
      && exists p :: file == p + r && (p == "" || p[|p| - 1] == '/')
  {
    var ps := Pieces(file);
    assert ShortFile(file) == ps[|ps| - 1] by {
      SegmentsEndInLastPiece(file);
    }
    PiecesHaveNoSlash(file);
    LastPieceIsSuffix(file);
  }

  /** The last piece of a path that ends in a run without `/` is that run. */
  lemma {:induction false} LastPieceOfRun(p: string, r: string)
    requires p == "" || p[|p| - 1] == '/'
    requires '/' !in r
    ensures Pieces(p + r)[|Pieces(p + r)| - 1] == r
    decreases |r|
  {
    if |r| == 0 {
      assert p + r == p;
      LastPieceAfterSlash(p);
    } else {
      var r' := r[..|r| - 1];
      var c := r[|r| - 1];
      assert c != '/' && '/' !in r' by {
        assert c in r;
        assert forall x :: x in r' ==> x in r;
      }
      LastPieceOfRun(p, r');
      assert p + r == (p + r') + [c] by {
        assert r == r' + [c];
      }
      LastPieceGrows(p + r', c);
    }
  }

  /** The last piece of the empty path or of one ending in `/` is empty. */
  lemma LastPieceAfterSlash(p: string)
    requires p == "" || p[|p| - 1] == '/'
    ensures Pieces(p)[|Pieces(p)| - 1] == ""
  {
    if |p| > 0 {
      assert Pieces(p) == Pieces(p[..|p| - 1]) + [""];
    }
  }

  /** A character other than `/` is appended to the last piece. */
  lemma LastPieceGrows(s: string, c: char)
    requires c != '/'
    ensures Pieces(s + [c])[|Pieces(s + [c])| - 1] == Pieces(s)[|Pieces(s)| - 1] + [c]
  {
    var t := s + [c];
    assert t[..|t| - 1] == s && t[|t| - 1] == c;
  }

  /** Conversely, the last maximal run of characters other than `/` is the
      label: together with ShortFileIsLastRun this pins the label down. */
  lemma {:induction false} LastRunIsShortFile(file: string, p: string, r: string, q: string)
    requires LastRunAt(file, p, r, q)
    ensures ShortFile(file) == r
    decreases |q|
  {
    if |q| == 0 {
      assert file == p + r;
      assert r[|r| - 1] != '/' by {
        assert r[|r| - 1] in r;
      }
      SegmentsEndInLastPiece(file);
      LastPieceOfRun(p, r);
    } else {
      var q' := q[..|q| - 1];
      assert file[..|file| - 1] == p + r + q';
      SegmentsDropSlash(file);
      LastRunIsShortFile(file[..|file| - 1], p, r, q');
    }
  }

  lemma ShortFileExamples()
    ensures ShortFile("/usr/src/app/Foo.ext") == "Foo.ext"
    ensures ShortFile("/a/b/C.ext") == "C.ext"
    ensures ShortFile("Foo.ext") == "Foo.ext"
    ensures ShortFile("") == "" && ShortFile("///") == "///"
  {
    LastRunExample("/usr/src/app/Foo.ext", "/usr/src/app/", "Foo.ext");
    LastRunExample("/a/b/C.ext", "/a/b/", "C.ext");
    ShortFileWithoutSlash("Foo.ext");
    ShortFileAllSlashes("");
    ShortFileAllSlashes("///");
  }

  lemma LastRunExample(file: string, dir: string, name: string)
    requires file == dir + name && name != "" && '/' !in name
    requires dir == "" || dir[|dir| - 1] == '/'
    ensures ShortFile(file) == name
  {
    assert LastRunAt(file, dir, name, "");
    LastRunIsShortFile(file, dir, name, "");
  }
}
