/** A receipt's path list, put in a form that equal sets share. */
module PathSets {
  import opened TextOrder

  /** The names a list of paths stands for; the empty text names nothing. */
  function PathNames(paths: seq<string>): set<string> {
    set path | path in paths && path != ""
  }

  ghost predicate Ascending(s: seq<string>) {
    forall i, j :: 0 <= i < j < |s| ==> Less(s[i], s[j])
  }

  function Insert(text: string, sorted: seq<string>): seq<string> {
    if sorted == [] || Less(text, sorted[0]) then [text] + sorted
    else if text == sorted[0] then sorted
    else [sorted[0]] + Insert(text, sorted[1..])
  }

  /** The list as an ascending one: empty texts dropped, equal ones once, none changed. */
  function CanonicalPathSet(paths: seq<string>): seq<string> {
    if paths == [] then []
    else if paths[0] == "" then CanonicalPathSet(paths[1..])
    else Insert(paths[0], CanonicalPathSet(paths[1..]))
  }

  lemma {:induction false} InsertKeepsAscending(text: string, sorted: seq<string>)
    requires Ascending(sorted)
    ensures Ascending(Insert(text, sorted))
    ensures forall x :: x in Insert(text, sorted) <==> x == text || x in sorted
  {
    if sorted != [] {
      var rest := sorted[1..];
      if Less(text, sorted[0]) {
        forall j | 0 <= j < |sorted| ensures Less(text, sorted[j]) {
          if j > 0 { LessIsTransitive(text, sorted[0], sorted[j]); }
        }
      } else if text != sorted[0] {
        LessIsTotal(text, sorted[0]);
        InsertKeepsAscending(text, rest);
        forall x | x in Insert(text, rest) ensures Less(sorted[0], x) {
        }
      }
      assert sorted == [sorted[0]] + rest;
    }
  }

  lemma {:induction false} CanonicalPathSetSorts(paths: seq<string>)
    ensures Ascending(CanonicalPathSet(paths))
    ensures forall x :: x in CanonicalPathSet(paths) <==> x in PathNames(paths)
  {
    if paths != [] {
      CanonicalPathSetSorts(paths[1..]);
      assert paths == [paths[0]] + paths[1..];
      if paths[0] != "" {
        InsertKeepsAscending(paths[0], CanonicalPathSet(paths[1..]));
      }
    }
  }

  /** An ascending list is determined by what it holds. */
  lemma {:induction false} AscendingIsUnique(a: seq<string>, b: seq<string>)
    requires Ascending(a) && Ascending(b)
    requires forall x :: x in a <==> x in b
    ensures a == b
  {
    assert a != [] ==> a[0] in a;
    assert b != [] ==> b[0] in b;
    if a != [] {
      var i :| 0 <= i < |b| && b[i] == a[0];
      var j :| 0 <= j < |a| && a[j] == b[0];
      if i > 0 && j > 0 {
        LessIsTransitive(a[0], b[0], a[0]);
        LessIsIrreflexive(a[0]);
      }
      assert a[0] == b[0];
      forall x ensures x in a[1..] <==> x in b[1..] {
        LessIsIrreflexive(a[0]);
        assert x in a <==> x == a[0] || x in a[1..];
        assert x in b <==> x == b[0] || x in b[1..];
      }
      AscendingIsUnique(a[1..], b[1..]);
    }
  }

  /** The canonical form ignores order, repetition and empty texts, and nothing else. */
  lemma CanonicalPathSetIsCanonical(a: seq<string>, b: seq<string>)
    ensures CanonicalPathSet(a) == CanonicalPathSet(b) <==> PathNames(a) == PathNames(b)
  {
    CanonicalPathSetSorts(a);
    CanonicalPathSetSorts(b);
    if PathNames(a) == PathNames(b) {
      AscendingIsUnique(CanonicalPathSet(a), CanonicalPathSet(b));
    } else if CanonicalPathSet(a) == CanonicalPathSet(b) {
      assert forall x :: x in PathNames(a) <==> x in PathNames(b);
    }
  }
}
