/** Secret paths and the permission patterns that select them. */
module SecretPatterns {
  import opened Strings

  datatype Result<+T> = Ok(value: T) | InvalidPath(text: string) | InvalidPattern(text: string)

  /** An exact path, or every descendant of a prefix path. */
  datatype Pattern = Exact(path: string) | Descendants(prefix: string)

  predicate SegmentChar(c: char) {
    'a' <= c <= 'z' || '0' <= c <= '9' || c == '_'
  }

  predicate ValidSegment(segment: string) {
    |segment| > 0 && forall i | 0 <= i < |segment| :: SegmentChar(segment[i])
  }

  predicate ValidPath(value: string) {
    |value| > 0 && forall i | 0 <= i < |Split(value, '.')| :: ValidSegment(Split(value, '.')[i])
  }

  predicate Valid(pattern: Pattern) {
    match pattern
    case Exact(path) => ValidPath(path)
    case Descendants(prefix) => ValidPath(prefix)
  }

  function ParsePath(value: string): Result<string> {
    if ValidPath(value) then Ok(value) else InvalidPath(value)
  }

  function ParsePattern(value: string): Result<Pattern> {
    if EndsWith(value, ".*") then
      var prefix := value[..|value| - 2];
      if prefix == "" || '*' in prefix then InvalidPattern(value)
      else match ParsePath(prefix)
        case Ok(path) => Ok(Descendants(path))
        case _ => InvalidPattern(value)
    else if '*' in value then InvalidPattern(value)
    else match ParsePath(value)
      case Ok(path) => Ok(Exact(path))
      case InvalidPath(text) => InvalidPath(text)
      case InvalidPattern(text) => InvalidPattern(text)
  }

  /** The canonical policy text of a pattern. */
  function Text(pattern: Pattern): string {
    match pattern
    case Exact(path) => path
    case Descendants(prefix) => prefix + ".*"
  }

  /** `path` continues `prefix` at a segment boundary. */
  predicate Below(prefix: string, path: string) {
    prefix <= path && |path| > |prefix| && path[|prefix|] == '.'
  }

  predicate Matches(pattern: Pattern, path: string) {
    match pattern
    case Exact(exact) => exact == path
    case Descendants(prefix) => Below(prefix, path)
  }

  /** Whether this requested pattern can authorize the supplied grant. */
  predicate AllowsPattern(requested: Pattern, granted: Pattern) {
    match (requested, granted)
    case (Exact(r), Exact(g)) => r == g
    case (Descendants(_), Exact(g)) => Matches(requested, g)
    case (Descendants(r), Descendants(g)) => g == r || Below(r, g)
    case (Exact(_), Descendants(_)) => false
  }

  // ---------- parsing ----------

  /** Over the characters: runs of path characters with single dots between them. */
  lemma ValidPathIff(value: string)
    ensures ValidPath(value) <==> Separated(value, '.', SegmentChar, SegmentChar)
  {
    SeparatedIff(value, '.', SegmentChar, SegmentChar);
    assert forall s :: Run(s, SegmentChar, SegmentChar) <==> ValidSegment(s);
  }

  lemma PathHasNoStar(value: string)
    requires ValidPath(value)
    ensures '*' !in value
  {
    forall i | 0 <= i < |Split(value, '.')| ensures '*' !in Split(value, '.')[i] {
      assert ValidSegment(Split(value, '.')[i]);
    }
    PiecesCover(value, '.', '*');
  }

  /** Parsing accepts exactly the canonical texts of valid patterns, and gives back the pattern. */
  lemma ParsePatternRoundTrip(pattern: Pattern, value: string)
    requires Valid(pattern)
    ensures ParsePattern(Text(pattern)) == Ok(pattern)
    ensures ParsePattern(value).Ok? ==> Valid(ParsePattern(value).value) && Text(ParsePattern(value).value) == value
  {
    match pattern {
      case Exact(path) =>
        PathHasNoStar(path);
        EndsWithLast(path, ".*");
      case Descendants(prefix) =>
        PathHasNoStar(prefix);
        assert Text(pattern)[..|Text(pattern)| - 2] == prefix;
    }
    if EndsWith(value, ".*") {
      assert value == value[..|value| - 2] + ".*";
    }
  }

  // ---------- language inclusion ----------

  /** Every valid path that `inner` matches is matched by `outer`. */
  ghost predicate Includes(outer: Pattern, inner: Pattern) {
    forall path | ValidPath(path) && Matches(inner, path) :: Matches(outer, path)
  }

  lemma ChildIsValid(prefix: string, segment: string)
    requires ValidPath(prefix) && ValidSegment(segment)
    ensures ValidPath(prefix + "." + segment)
  {
    assert '.' !in segment;
    SplitAppend(prefix, '.', segment);
    assert prefix + ['.'] + segment == prefix + "." + segment;
  }

  /** A path below a child of `prefix` by one plain segment is below `prefix` or is that prefix. */
  lemma PrefixOfChild(prefix: string, other: string, segment: string)
    requires ValidSegment(segment)
    ensures Below(other, prefix + "." + segment) <==> other == prefix || Below(other, prefix)
  {
    var child := prefix + "." + segment;
    assert child[..|prefix|] == prefix;
    assert forall i | |prefix| < i < |child| :: child[i] == segment[i - |prefix| - 1] && SegmentChar(child[i]);
    if |other| <= |prefix| {
      assert other <= child <==> other <= prefix by {
        assert child[..|other|] == prefix[..|other|];
      }
    }
  }

  /** `allows_pattern` decides inclusion of the matched path sets. */
  lemma AllowsPatternIsInclusion(requested: Pattern, granted: Pattern)
    requires Valid(requested) && Valid(granted)
    ensures AllowsPattern(requested, granted) <==> Includes(requested, granted)
  {
    match granted {
      case Exact(g) =>
        assert Matches(granted, g);
      case Descendants(g) =>
        assert ValidSegment("a") && ValidSegment("b");
        ChildIsValid(g, "a");
        ChildIsValid(g, "b");
        assert (g + "." + "a")[|g| + 1] != (g + "." + "b")[|g| + 1];
        assert Matches(granted, g + "." + "a") && Matches(granted, g + "." + "b");
        if requested.Descendants? {
          PrefixOfChild(g, requested.prefix, "a");
          if AllowsPattern(requested, granted) {
            forall path | Matches(granted, path) ensures Matches(requested, path) {
              if requested.prefix != g {
                assert path[..|requested.prefix|] == g[..|requested.prefix|];
              }
            }
          }
        }
    }
  }

  // ---------- grants held as a list ----------

  predicate AnyMatches(grants: seq<Pattern>, path: string) {
    exists i :: 0 <= i < |grants| && Matches(grants[i], path)
  }

  predicate AnyAllows(grants: seq<Pattern>, required: Pattern) {
    exists i :: 0 <= i < |grants| && AllowsPattern(grants[i], required)
  }

  /** A plain segment longer than every granted text. */
  function LongSegment(grants: seq<Pattern>): (segment: string)
    ensures ValidSegment(segment)
    ensures forall i | 0 <= i < |grants| :: |segment| > |Text(grants[i])|
  {
    if |grants| == 0 then "a"
    else
      var rest := LongSegment(grants[1..]);
      assert forall i | 1 <= i < |grants| :: grants[i] == grants[1..][i - 1];
      rest + seq(|Text(grants[0])| + 1, _ => 'a')
  }

  /** No finite list of narrower grants adds up to a required domain: a requirement is met by one
      grant exactly when every path it names can be read. */
  lemma RequirementMetIffAllReadable(grants: seq<Pattern>, required: Pattern)
    requires Valid(required) && forall i | 0 <= i < |grants| :: Valid(grants[i])
    ensures AnyAllows(grants, required)
       <==> forall path | ValidPath(path) && Matches(required, path) :: AnyMatches(grants, path)
  {
    hide AllowsPattern, Matches, Valid, ValidPath;
    forall i, path | 0 <= i < |grants| && AllowsPattern(grants[i], required) && ValidPath(path) && Matches(required, path)
      ensures Matches(grants[i], path)
    {
      AllowsPatternIsInclusion(grants[i], required);
    }
    if !AnyAllows(grants, required) {
      var path := UnreadablePath(grants, required);
    }
  }

  /** A requirement no grant allows names a path that no grant matches. */
  lemma UnreadablePath(grants: seq<Pattern>, required: Pattern) returns (path: string)
    requires Valid(required) && (forall i | 0 <= i < |grants| :: Valid(grants[i])) && !AnyAllows(grants, required)
    ensures ValidPath(path) && Matches(required, path) && !AnyMatches(grants, path)
  {
    match required {
      case Exact(exact) =>
        path := exact;
        forall i | 0 <= i < |grants| ensures !Matches(grants[i], path) {
          assert !AllowsPattern(grants[i], required);
        }
      case Descendants(prefix) =>
        LongChildDecides(grants, required);
        path := prefix + "." + LongSegment(grants);
    }
  }

  /** Whoever can read a child longer than every grant holds a grant for the whole domain. */
  lemma LongChildDecides(grants: seq<Pattern>, required: Pattern)
    requires Valid(required) && required.Descendants? && forall i | 0 <= i < |grants| :: Valid(grants[i])
    ensures var child := required.prefix + "." + LongSegment(grants);
      ValidPath(child) && Matches(required, child) && (AnyMatches(grants, child) ==> AnyAllows(grants, required))
  {
    var segment := LongSegment(grants);
    var child := required.prefix + "." + segment;
    ChildIsValid(required.prefix, segment);
    if i :| 0 <= i < |grants| && Matches(grants[i], child) {
      if grants[i].Descendants? {
        PrefixOfChild(required.prefix, grants[i].prefix, segment);
      }
      assert AllowsPattern(grants[i], required);
    }
  }
}
