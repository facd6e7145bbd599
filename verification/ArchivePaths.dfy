/** Canonical paths inside artifacts and the names archive entries may carry. */
module ArchivePaths {
  import opened Identifiers
  import opened Strings

  predicate Control(c: char) {
    c <= '\U{1F}' || '\U{7F}' <= c <= '\U{9F}'
  }

  function StripSlash(value: string): string {
    if |value| > 0 && value[|value| - 1] == '/' then value[..|value| - 1] else value
  }

  predicate EndsInSlash(value: string) {
    |value| > 0 && value[|value| - 1] == '/'
  }

  /** Non-empty segments, none of them `.` or `..`. */
  predicate PlainSegments(path: string) {
    forall i | 0 <= i < |Split(path, '/')| :: var s := Split(path, '/')[i]; s != "" && s != "." && s != ".."
  }

  predicate ValidSegments(value: string, isDirectory: bool) {
    && value != "" && value[0] != '/' && '\\' !in value && ':' !in value
    && (forall i | 0 <= i < |value| :: !Control(value[i]))
    && var normalized := if isDirectory then StripSlash(value) else value;
       normalized != "" && PlainSegments(normalized)
  }

  /** `ArtifactPath::parse` */
  predicate ValidPath(value: string) {
    ValidSegments(value, false) && !EndsInSlash(value)
  }

  /** The normalized name of an archive entry, when its raw name is acceptable. */
  function ArchiveName(value: string, isDirectory: bool): Option<string> {
    var candidate := if isDirectory then StripSlash(value) else value;
    if ValidSegments(candidate, isDirectory) && (isDirectory <==> EndsInSlash(value)) then Some(candidate) else None
  }

  lemma {:induction false} SplitEndingInSlash(value: string)
    requires EndsInSlash(value)
    ensures |Split(value, '/')| >= 2 && Split(value, '/')[|Split(value, '/')| - 1] == ""
  {
    if |value| > 1 {
      assert EndsInSlash(value[1..]) by {
        assert value[1..][|value| - 2] == value[|value| - 1];
      }
      SplitEndingInSlash(value[1..]);
    } else {
      assert value[1..] == "";
    }
  }

  /** No stretch between slashes is empty, `.` or `..`. */
  ghost predicate NoDotSegments(path: string) {
    forall i: nat, j: nat | SegmentAt(path, '/', i, j) :: path[i..j] != "" && path[i..j] != "." && path[i..j] != ".."
  }

  lemma PlainMeansNoDots(path: string)
    ensures PlainSegments(path) <==> NoDotSegments(path)
  {
    if PlainSegments(path) {
      forall i: nat, j: nat | SegmentAt(path, '/', i, j) ensures path[i..j] != "" && path[i..j] != "." && path[i..j] != ".." {
        var k := SegmentIsPiece(path, '/', i, j);
      }
    }
    if NoDotSegments(path) {
      forall k | 0 <= k < |Split(path, '/')| ensures var s := Split(path, '/')[k]; s != "" && s != "." && s != ".." {
        var i, j := PieceIsSegment(path, '/', k);
      }
    }
  }

  /** An accepted name is relative and never steps out: over its characters, no stretch between slashes is `..`, `.` or,
      but for the end of a directory's name, empty. */
  lemma AcceptedNamesStayInside(value: string, isDirectory: bool)
    requires ArchiveName(value, isDirectory).Some?
    ensures var name := ArchiveName(value, isDirectory).value;
      && name != "" && name[0] != '/' && '\\' !in name && ':' !in name
      && NoDotSegments(if isDirectory then StripSlash(name) else name)
      && forall i: nat, j: nat | SegmentAt(name, '/', i, j) :: name[i..j] != ".." && name[i..j] != "."
  {
    var name := ArchiveName(value, isDirectory).value;
    PlainMeansNoDots(if isDirectory then StripSlash(name) else name);
    if isDirectory && EndsInSlash(name) {
      var inner := StripSlash(name);
      forall i: nat, j: nat | SegmentAt(name, '/', i, j) ensures name[i..j] != ".." && name[i..j] != "." {
        if j <= |inner| {
          assert SegmentAt(inner, '/', i, j) && inner[i..j] == name[i..j];
        }
      }
    }
  }

  /** Slash-separated non-empty stretches of letters and digits always make an acceptable file name. */
  lemma OrdinaryNamesAreAccepted(value: string)
    requires value != "" && value[0] != '/' && value[|value| - 1] != '/'
    requires forall i | 0 <= i < |value| :: Ordinary(value[i]) || value[i] == '/'
    requires forall i | 0 < i < |value| :: value[i] == '/' ==> value[i - 1] != '/'
    ensures ArchiveName(value, false) == Some(value) && ValidPath(value)
  {
    forall i: nat, j: nat | SegmentAt(value, '/', i, j) ensures value[i..j] != "" && value[i..j] != "." && value[i..j] != ".." {
      if i < j {
        assert value[i..j][0] == value[i];
      }
    }
    PlainMeansNoDots(value);
  }

  predicate Ordinary(c: char) {
    'a' <= c <= 'z' || 'A' <= c <= 'Z' || '0' <= c <= '9'
  }

  /** A file's normalized name is always a canonical artifact path; a directory's is exactly when its raw name
      does not end in two slashes. */
  lemma CanonicalNameIff(value: string, isDirectory: bool)
    requires ArchiveName(value, isDirectory).Some?
    ensures ValidPath(ArchiveName(value, isDirectory).value) <==> !isDirectory || !EndsInSlash(StripSlash(value))
  {
    var name := ArchiveName(value, isDirectory).value;
    if EndsInSlash(name) {
      SplitEndingInSlash(name);
    } else {
      assert StripSlash(name) == name;
    }
  }

  /** `p` is a proper ancestor of `q`: one of `parent_paths(q)`. */
  predicate Ancestor(p: string, q: string) {
    exists k :: 0 <= k < |q| && q[k] == '/' && q[..k] == p
  }

  /** Whether one of the path's ancestors is in the set. */
  method AncestorIn(path: string, files: set<string>) returns (found: bool)
    ensures found <==> exists p :: p in files && Ancestor(p, path)
  {
    for k := 0 to |path|
      invariant forall p, j | p in files && 0 <= j < k && path[j] == '/' :: path[..j] != p
    {
      if path[k] == '/' && path[..k] in files {
        assert Ancestor(path[..k], path);
        return true;
      }
    }
    return false;
  }
}
