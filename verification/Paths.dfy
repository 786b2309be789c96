/** Paths of bind files: cleaning them, accepting them, and finding out whether a reference names one.

    Cleaning follows the documented rules of filepath.Clean on Unix: walk through the segments of the path
    with a stack of components. */
module Paths {
  import opened Wrappers

  // ---------------------------------------------------------------------------------------------
  // Segments
  // ---------------------------------------------------------------------------------------------

  function FirstSlash(path: string): (i: nat)
    ensures i <= |path| && forall k | 0 <= k < i :: path[k] != '/'
    ensures i < |path| ==> path[i] == '/'
  {
    if path == "" || path[0] == '/' then 0 else FirstSlash(path[1..]) + 1
  }

  /** The parts of a path between its slashes. */
  function Split(path: string): (segments: seq<string>)
    ensures segments != []
    ensures forall i | 0 <= i < |segments| :: '/' !in segments[i]
    decreases |path|
  {
    var i := FirstSlash(path);
    if i == |path| then
      assert path[..i] == path;
      [path]
    else [path[..i]] + Split(path[i + 1..])
  }

  function Join(segments: seq<string>): string {
    if segments == [] then ""
    else if |segments| == 1 then segments[0]
    else segments[0] + "/" + Join(segments[1..])
  }

  ghost predicate NoSlashes(segments: seq<string>) {
    forall i | 0 <= i < |segments| :: '/' !in segments[i]
  }

  lemma SplitStep(segment: string, path: string)
    requires '/' !in segment
    ensures Split(segment) == [segment]
    ensures Split(segment + "/" + path) == [segment] + Split(path)
  {
    var whole := segment + "/" + path;
    assert segment[..|segment|] == segment == whole[..|segment|];
    assert whole[|segment| + 1..] == path;
    assert FirstSlash(segment) == |segment|;
    assert whole[|segment|] == '/' && forall k | 0 <= k < |segment| :: whole[k] == segment[k];
    assert FirstSlash(whole) == |segment|;
  }

  lemma SplitAtFirst(path: string)
    requires FirstSlash(path) < |path|
    ensures Split(path) == [path[..FirstSlash(path)]] + Split(path[FirstSlash(path) + 1..])
  {
    hide FirstSlash;
  }

  lemma CutAtFirst(path: string, i: nat)
    requires i < |path| && path[i] == '/'
    ensures path == path[..i] + "/" + path[i + 1..]
  {
  }

  /** A slash separates what comes before it from what comes after it. */
  lemma {:induction false} SplitAppend(a: string, b: string)
    ensures Split(a + "/" + b) == Split(a) + Split(b)
    decreases |a|
  {
    hide Split, FirstSlash;
    var i := FirstSlash(a);
    if i == |a| {
      SplitStep(a, b);
    } else {
      var (first, rest) := (a[..i], a[i + 1..]);
      SplitAtFirst(a);
      CutAtFirst(a, i);
      SplitAppend(rest, b);
      assert a + "/" + b == first + "/" + (rest + "/" + b);
      SplitStep(first, rest + "/" + b);
      Associates([first], Split(rest), Split(b));
    }
  }

  lemma Associates(a: seq<string>, b: seq<string>, c: seq<string>)
    ensures a + (b + c) == a + b + c
  {
  }

  lemma {:induction false} SplitJoin(segments: seq<string>)
    requires segments != [] && NoSlashes(segments)
    ensures Split(Join(segments)) == segments
  {
    SplitStep(segments[0], "");
    if |segments| > 1 {
      SplitJoin(segments[1..]);
      SplitAppend(segments[0], Join(segments[1..]));
    }
  }

  lemma {:induction false} JoinAppend(a: seq<string>, b: seq<string>)
    requires a != [] && b != []
    ensures Join(a + b) == Join(a) + "/" + Join(b)
  {
    if |a| == 1 {
      assert (a + b)[1..] == b;
    } else {
      JoinAppend(a[1..], b);
      assert (a + b)[1..] == a[1..] + b;
      assert Join(a) + "/" + Join(b) == a[0] + "/" + (Join(a[1..]) + "/" + Join(b));
    }
  }

  // ---------------------------------------------------------------------------------------------
  // Cleaning
  // ---------------------------------------------------------------------------------------------

  predicate IsRooted(path: string) {
    path != "" && path[0] == '/'
  }

  /** One segment further from a place given by its components. */
  function Enter(rooted: bool, at: seq<string>, segment: string): seq<string> {
    if segment == "" || segment == "." then at
    else if segment != ".." then at + [segment]
    else if at != [] && at[|at| - 1] != ".." then at[..|at| - 1]
    else if rooted then at
    else at + [".."]
  }

  function Walk(rooted: bool, at: seq<string>, segments: seq<string>): seq<string>
    decreases |segments|
  {
    if segments == [] then at else Walk(rooted, Enter(rooted, at, segments[0]), segments[1..])
  }

  function Components(path: string): seq<string> {
    Walk(IsRooted(path), [], Split(path))
  }

  /** filepath.Clean */
  function Clean(path: string): string {
    var components := Components(path);
    if IsRooted(path) then "/" + Join(components)
    else if components == [] then "."
    else Join(components)
  }

  /** filepath.IsLocal */
  predicate IsLocal(path: string) {
    path != "" && !IsRooted(path) && (Components(path) != [] ==> Components(path)[0] != "..")
  }

  /** filepath.Join of two elements */
  function JoinPaths(a: string, b: string): string {
    if a == "" && b == "" then "" else if a == "" then Clean(b) else if b == "" then Clean(a) else Clean(a + "/" + b)
  }

  /** Components are segments that lead somewhere. Only a relative path leads upwards, and only at first. */
  ghost predicate IsCleaned(rooted: bool, components: seq<string>) {
    && (forall i | 0 <= i < |components| :: components[i] != "" && components[i] != "." && '/' !in components[i])
    && (forall i | 0 <= i < |components| && components[i] == ".." ::
          !rooted && forall j | 0 <= j < i :: components[j] == "..")
  }

  lemma {:induction false} WalkStaysCleaned(rooted: bool, at: seq<string>, segments: seq<string>)
    requires IsCleaned(rooted, at) && NoSlashes(segments)
    ensures IsCleaned(rooted, Walk(rooted, at, segments))
    decreases |segments|
  {
    if segments != [] {
      WalkStaysCleaned(rooted, Enter(rooted, at, segments[0]), segments[1..]);
    }
  }

  lemma ComponentsAreCleaned(path: string)
    ensures IsCleaned(IsRooted(path), Components(path))
  {
    WalkStaysCleaned(IsRooted(path), [], Split(path));
  }

  /** Walking through cleaned components passes all of them. */
  lemma {:induction false} WalkPasses(rooted: bool, at: seq<string>, components: seq<string>)
    requires IsCleaned(rooted, at + components)
    ensures Walk(rooted, at, components) == at + components
    decreases |components|
  {
    if components == [] {
      assert at + components == at;
    } else {
      var c := components[0];
      assert (at + components)[|at|] == c;
      assert c == ".." && at != [] ==> (at + components)[|at| - 1] == "..";
      assert at + components == (at + [c]) + components[1..];
      WalkPasses(rooted, at + [c], components[1..]);
    }
  }

  lemma {:induction false} WalkAppend(rooted: bool, at: seq<string>, a: seq<string>, b: seq<string>)
    ensures Walk(rooted, at, a + b) == Walk(rooted, Walk(rooted, at, a), b)
    decreases |a|
  {
    if a == [] {
      assert a + b == b;
    } else {
      assert (a + b)[1..] == a[1..] + b;
      WalkAppend(rooted, Enter(rooted, at, a[0]), a[1..], b);
    }
  }

  lemma ComponentsOfJoin(components: seq<string>)
    requires IsCleaned(false, components) && components != []
    ensures !IsRooted(Join(components)) && Components(Join(components)) == components
  {
    SplitJoin(components);
    assert Join(components)[0] == components[0][0];
    assert components[0][0] in components[0];
    assert [] + components == components;
    WalkPasses(false, [], components);
  }

  /** A cleaned path leads to the same place, and cleaning it again changes nothing. */
  lemma CleanIsIdempotent(path: string)
    ensures IsRooted(Clean(path)) == IsRooted(path) && Components(Clean(path)) == Components(path)
    ensures Clean(Clean(path)) == Clean(path)
  {
    var components := Components(path);
    ComponentsAreCleaned(path);
    if IsRooted(path) {
      assert Clean(path)[1..] == Join(components);
      assert Split(Clean(path)) == [""] + Split(Join(components));
      if components == [] {
        assert ["", ""][1..] == [""];
        assert Walk(true, [], [""]) == [];
      } else {
        SplitJoin(components);
        assert [] + components == components;
        WalkPasses(true, [], components);
        assert ([""] + components)[1..] == components;
      }
    } else if components == [] {
      SplitStep(".", "");
    } else {
      ComponentsOfJoin(components);
    }
  }

  // ---------------------------------------------------------------------------------------------
  // Bind file paths
  // ---------------------------------------------------------------------------------------------

  datatype PathError = NotInside(path: string) | Reserved(path: string)

  function NormalizeBindFilePath(path: string): Result<string, PathError> {
    var cleaned := Clean(path);
    if !IsLocal(cleaned) || cleaned == "." then Failure(NotInside(path)) else Success(cleaned)
  }

  /** A place strictly inside the directory the path starts from. */
  ghost predicate LeadsInside(path: string) {
    !IsRooted(path) && Components(path) != [] && Components(path)[0] != ".."
  }

  lemma InsideNeverLeadsUp(path: string)
    requires LeadsInside(path)
    ensures ".." !in Components(path) && IsCleaned(true, Components(path))
  {
    ComponentsAreCleaned(path);
  }

  /** A path is accepted exactly if it leads strictly inside, and becomes its components. */
  lemma NormalizeMeans(path: string)
    ensures NormalizeBindFilePath(path).Success? <==> LeadsInside(path)
    ensures LeadsInside(path) ==> NormalizeBindFilePath(path) == Success(Join(Components(path)))
  {
    CleanIsIdempotent(path);
    var components := Components(path);
    ComponentsAreCleaned(path);
    if components != [] && !IsRooted(path) {
      ComponentsOfJoin(components);
      assert Join(components) == "." ==> components == [] by {
        SplitStep(".", "");
      }
    }
  }

  lemma NormalizeIsIdempotent(path: string)
    ensures NormalizeBindFilePath(path).Success? ==>
              var normalized := NormalizeBindFilePath(path).value;
              && NormalizeBindFilePath(normalized) == Success(normalized)
              && Components(normalized) == Components(path)
  {
    CleanIsIdempotent(path);
  }

  /** Accepted paths become the same path exactly if they lead to the same place. */
  lemma NormalizeIdentifiesPlaces(a: string, b: string)
    requires LeadsInside(a) && LeadsInside(b)
    ensures NormalizeBindFilePath(a) == NormalizeBindFilePath(b) <==> Components(a) == Components(b)
  {
    NormalizeMeans(a);
    NormalizeMeans(b);
    NormalizeIsIdempotent(a);
    NormalizeIsIdempotent(b);
  }

  function BindFilePath(topologyId: string, path: string): Result<string, PathError> {
    match NormalizeBindFilePath(path)
    case Success(cleaned) => Success(JoinPaths(topologyId, cleaned))
    case Failure(error) => Failure(error)
  }

  /** Walking on through components that never lead up. */
  lemma JoinedComponents(a: string, components: seq<string>)
    requires components != [] && IsCleaned(true, components)
    ensures IsRooted(JoinPaths(a, Join(components))) == IsRooted(a)
    ensures Components(JoinPaths(a, Join(components))) == Components(a) + components
  {
    var b := Join(components);
    ComponentsOfJoin(components);
    CleanIsIdempotent(b);
    if a == "" {
      assert Components(a) + components == components by {
        assert Walk(false, [], [""]) == [];
      }
    } else {
      SplitAppend(a, b);
      SplitJoin(components);
      WalkAppend(IsRooted(a), [], Split(a), components);
      ComponentsAreCleaned(a);
      WalkPasses(IsRooted(a), Components(a), components);
      CleanIsIdempotent(a + "/" + b);
      assert IsRooted(a + "/" + b) == IsRooted(a);
    }
  }

  /** The place of a bind file is the place it names, seen from the directory of its topology, which it
      therefore never leaves. Paths that lead outside have no place. */
  lemma BindFilesStayInside(topologyId: string, path: string)
    ensures BindFilePath(topologyId, path).Success? <==> LeadsInside(path)
    ensures LeadsInside(path) ==>
              var place := BindFilePath(topologyId, path).value;
              && Components(place) == Components(topologyId) + Components(path)
              && IsRooted(place) == IsRooted(topologyId)
  {
    NormalizeMeans(path);
    if LeadsInside(path) {
      InsideNeverLeadsUp(path);
      JoinedComponents(topologyId, Components(path));
    }
  }

  // ---------------------------------------------------------------------------------------------
  // Reserved names
  // ---------------------------------------------------------------------------------------------

  const RESERVED_LITERALS: seq<string> := [
    "topology.clab.yaml", "topology.clab.yaml.annotations.json", "topology.yml", "topology.yml.annotations.json",
    "clab_templates", "netlab.snapshot.pickle", "netlab.snapshot.yml", "netlab.lock",
    "hosts.yml", "ansible.cfg", "group_vars", "host_vars", "node_files", "clab_files", "config"]

  const RESERVED_NAMES: seq<string> := RESERVED_LITERALS + ["clab-*", "topology.clab_vars.*"]

  function ToLower(text: string): (lower: string)
    ensures |lower| == |text|
  {
    seq(|text|, i requires 0 <= i < |text| => if 'A' <= text[i] <= 'Z' then text[i] - 'A' + 'a' else text[i])
  }

  /** path.Match for patterns whose only special character is the star. */
  predicate Matches(pattern: string, name: string)
    decreases |pattern| + |name|
  {
    if pattern == "" then name == ""
    else if pattern[0] == '*' then
      Matches(pattern[1..], name) || (name != "" && name[0] != '/' && Matches(pattern, name[1..]))
    else name != "" && name[0] == pattern[0] && Matches(pattern[1..], name[1..])
  }

  predicate IsReserved(path: string) {
    var first := ToLower(Split(path)[0]);
    exists pattern | pattern in RESERVED_NAMES :: Matches(pattern, first)
  }

  function ValidateBindFilePath(path: string): Result<string, PathError> {
    match NormalizeBindFilePath(path)
    case Success(cleaned) => if IsReserved(cleaned) then Failure(Reserved(cleaned)) else Success(cleaned)
    case Failure(error) => Failure(error)
  }

  lemma {:induction false} MatchesLiteral(pattern: string, name: string)
    requires '*' !in pattern
    ensures Matches(pattern, name) <==> pattern == name
  {
    if pattern != "" && name != "" {
      MatchesLiteral(pattern[1..], name[1..]);
      assert pattern == [pattern[0]] + pattern[1..] && name == [name[0]] + name[1..];
    }
  }

  lemma {:induction false} StarMatches(name: string)
    requires '/' !in name
    ensures Matches("*", name)
  {
    if name == "" {
      assert Matches("*"[1..], name);
    } else {
      StarMatches(name[1..]);
    }
  }

  lemma {:induction false} MatchesPrefix(prefix: string, name: string)
    requires '*' !in prefix && '/' !in name
    ensures Matches(prefix + "*", name) <==> prefix <= name
  {
    if prefix == "" {
      assert prefix + "*" == "*";
      StarMatches(name);
    } else if name != "" {
      MatchesPrefix(prefix[1..], name[1..]);
      assert (prefix + "*")[1..] == prefix[1..] + "*";
      assert prefix == [prefix[0]] + prefix[1..] && name == [name[0]] + name[1..];
    }
  }

  lemma StarPatternsMean(name: string)
    requires '/' !in name
    ensures Matches("clab-*", name) <==> "clab-" <= name
    ensures Matches("topology.clab_vars.*", name) <==> "topology.clab_vars." <= name
  {
    MatchesPrefix("clab-", name);
    MatchesPrefix("topology.clab_vars.", name);
    assert "clab-" + "*" == "clab-*" && "topology.clab_vars." + "*" == "topology.clab_vars.*";
  }

  lemma LiteralsHaveNoStar(i: nat)
    requires i < |RESERVED_LITERALS|
    ensures '*' !in RESERVED_LITERALS[i]
  {
  }

  /** A name in any case is reserved if it is one of the fixed names or continues one of the two prefixes. */
  lemma ReservedMeans(path: string)
    ensures var first := ToLower(Split(path)[0]);
            IsReserved(path) <==> first in RESERVED_LITERALS || "clab-" <= first || "topology.clab_vars." <= first
  {
    var first := ToLower(Split(path)[0]);
    assert '/' !in first;
    StarPatternsMean(first);
    forall i | 0 <= i < |RESERVED_LITERALS|
      ensures Matches(RESERVED_LITERALS[i], first) <==> RESERVED_LITERALS[i] == first
    {
      LiteralsHaveNoStar(i);
      MatchesLiteral(RESERVED_LITERALS[i], first);
    }
    assert RESERVED_NAMES[|RESERVED_LITERALS|] == "clab-*";
    assert RESERVED_NAMES[|RESERVED_LITERALS| + 1] == "topology.clab_vars.*";
  }

  /** Validation accepts the paths that lead strictly inside and whose first component is not reserved. The
      canonical form is accepted as it is. */
  lemma ValidateMeans(path: string)
    ensures ValidateBindFilePath(path).Success? <==> LeadsInside(path) && !IsReserved(Join(Components(path)))
    ensures ValidateBindFilePath(path).Success? ==>
              var canonical := ValidateBindFilePath(path).value;
              && Components(canonical) == Components(path)
              && ValidateBindFilePath(canonical) == Success(canonical)
              && Split(canonical)[0] == Components(path)[0]
  {
    NormalizeMeans(path);
    if NormalizeBindFilePath(path).Success? {
      NormalizeIsIdempotent(path);
      InsideNeverLeadsUp(path);
      SplitJoin(Components(path));
    }
  }

  // ---------------------------------------------------------------------------------------------
  // Files below a directory
  // ---------------------------------------------------------------------------------------------

  lemma LongerIsBelow(a: seq<string>, b: seq<string>)
    requires a != [] && b != [] && NoSlashes(a) && NoSlashes(b)
    requires Join(a) + "/" <= Join(b)
    ensures a <= b
  {
    var rest := Join(b)[|Join(a)| + 1..];
    assert Join(b) == Join(a) + "/" + rest;
    SplitAppend(Join(a), rest);
    SplitJoin(a);
    SplitJoin(b);
  }

  lemma BelowIsLonger(a: seq<string>, b: seq<string>)
    requires a != [] && a <= b
    ensures Join(b) == Join(a) || Join(a) + "/" <= Join(b)
  {
    var rest := b[|a|..];
    assert b == a + rest;
    if rest != [] {
      JoinAppend(a, rest);
    }
  }

  /** A cleaned path names another one or a directory around it exactly if its components lead there. */
  lemma NamesOrContains(a: seq<string>, b: seq<string>)
    requires a != [] && b != [] && NoSlashes(a) && NoSlashes(b)
    ensures Join(b) == Join(a) || Join(a) + "/" <= Join(b) <==> a <= b
  {
    if a <= b {
      BelowIsLonger(a, b);
    } else if Join(b) == Join(a) {
      SplitJoin(a);
      SplitJoin(b);
    } else if Join(a) + "/" <= Join(b) {
      LongerIsBelow(a, b);
    }
  }
}
