/** Where paths lead, said by counting their segments and by what appending a segment does. */
module PathWalks {
  import opened Paths

  lemma {:induction false} JoinSplit(path: string)
    ensures Join(Split(path)) == path
    decreases |path|
  {
    var i := FirstSlash(path);
    if i < |path| {
      JoinSplit(path[i + 1..]);
      SplitAtFirst(path);
      CutAtFirst(path, i);
    } else {
      assert path[..i] == path;
    }
  }

  // ---------------------------------------------------------------------------------------------
  // Counting segments
  // ---------------------------------------------------------------------------------------------

  /** How many segments lead up. */
  function Ups(segments: seq<string>): nat {
    if segments == [] then 0
    else Ups(segments[..|segments| - 1]) + if segments[|segments| - 1] == ".." then 1 else 0
  }

  /** How many segments lead down: all but the empty ones, single dots and double dots. */
  function Downs(segments: seq<string>): nat {
    if segments == [] then 0
    else
      var last := segments[|segments| - 1];
      Downs(segments[..|segments| - 1]) + if last == "" || last == "." || last == ".." then 0 else 1
  }

  /** How far above the start the segments get at most. */
  function Highest(segments: seq<string>): nat {
    if segments == [] then 0
    else
      var before := Highest(segments[..|segments| - 1]);
      if Ups(segments) > Downs(segments) + before then Ups(segments) - Downs(segments) else before
  }

  /** As many components lead up as the walk got above its start, and the others lead down. */
  ghost predicate IsAt(components: seq<string>, ups: nat, downs: nat, highest: nat) {
    && ups <= downs + highest
    && |components| == highest + (downs + highest - ups)
    && (forall i | 0 <= i < highest :: components[i] == "..")
    && (forall i | highest <= i < |components| :: components[i] != "..")
  }

  lemma WalkOneMore(rooted: bool, segments: seq<string>)
    requires segments != []
    ensures Walk(rooted, [], segments)
            == Enter(rooted, Walk(rooted, [], segments[..|segments| - 1]), segments[|segments| - 1])
  {
    var (before, last) := (segments[..|segments| - 1], segments[|segments| - 1]);
    assert segments == before + [last];
    WalkAppend(rooted, [], before, [last]);
    var at := Walk(rooted, [], before);
    assert Walk(rooted, at, [last]) == Walk(rooted, Enter(rooted, at, last), []);
  }

  lemma {:induction false} RelativeWalk(segments: seq<string>)
    ensures IsAt(Walk(false, [], segments), Ups(segments), Downs(segments), Highest(segments))
    decreases |segments|
  {
    if segments != [] {
      RelativeWalk(segments[..|segments| - 1]);
      WalkOneMore(false, segments);
    }
  }

  lemma {:induction false} HighestMeans(segments: seq<string>)
    ensures Highest(segments) == 0 <==>
            forall k | 0 <= k <= |segments| :: Ups(segments[..k]) <= Downs(segments[..k])
    decreases |segments|
  {
    if segments != [] {
      var before := segments[..|segments| - 1];
      HighestMeans(before);
      forall k | 0 <= k < |segments| ensures before[..k] == segments[..k] {
      }
      assert segments[..|segments|] == segments;
    }
  }

  /** A path leads strictly inside exactly if it does not start with a slash, none of its beginnings leads up more
      often than down, and all of it leads down more often than up. */
  lemma LeadsInsideMeans(path: string)
    ensures var segments := Split(path);
            LeadsInside(path) <==>
              && !(|path| > 0 && path[0] == '/')
              && (forall k | 0 <= k <= |segments| :: Ups(segments[..k]) <= Downs(segments[..k]))
              && Ups(segments) < Downs(segments)
  {
    var segments := Split(path);
    RelativeWalk(segments);
    HighestMeans(segments);
    assert segments[..|segments|] == segments;
  }

  // ---------------------------------------------------------------------------------------------
  // Appending a segment
  // ---------------------------------------------------------------------------------------------

  lemma ComponentsOfAppend(path: string, segment: string)
    requires path != "" && '/' !in segment
    ensures Components(path + "/" + segment) == Enter(IsRooted(path), Components(path), segment)
  {
    SplitAppend(path, segment);
    SplitStep(segment, "");
    var segments := Split(path) + [segment];
    WalkOneMore(IsRooted(path), segments);
    assert segments[..|segments| - 1] == Split(path);
    assert IsRooted(path + "/" + segment) == IsRooted(path);
  }

  lemma DownAndUp(path: string, name: string)
    requires path != "" && '/' !in name && name != "" && name != "." && name != ".."
    ensures Components(path + "/" + name) == Components(path) + [name]
    ensures Components(path + "/" + name + "/" + "..") == Components(path)
  {
    hide Components;
    ComponentsOfAppend(path, name);
    ComponentsOfAppend(path + "/" + name, "..");
    assert (Components(path) + [name])[..|Components(path)|] == Components(path);
  }

  lemma Nowhere(path: string)
    requires path != ""
    ensures Components(path + "/" + ".") == Components(path) && Components(path + "/" + "") == Components(path)
  {
    hide Components;
    ComponentsOfAppend(path, ".");
    ComponentsOfAppend(path, "");
  }

  /** One segment further from any path, and back. */
  lemma SegmentsLeadOn(path: string, name: string)
    requires path != "" && '/' !in name && name != "" && name != "." && name != ".."
    ensures Components(path + "/" + name) == Components(path) + [name]
    ensures Components(path + "/" + name + "/..") == Components(path)
    ensures Components(path + "/.") == Components(path) && Components(path + "/") == Components(path)
  {
    hide Components;
    DownAndUp(path, name);
    Nowhere(path);
    assert path + "/" + name + "/" + ".." == path + "/" + name + "/..";
    assert path + "/" + "." == path + "/." && path + "/" + "" == path + "/";
  }

  /** Up from the start: a path with a slash in front stays there, and another one leads above it. */
  lemma UpFromTheStart(path: string)
    requires path != ""
    ensures Components(path) == [] && path[0] == '/' ==> Components(path + "/..") == []
    ensures (Components(path) == [] || Components(path)[|Components(path)| - 1] == "..") && path[0] != '/' ==>
              Components(path + "/..") == Components(path) + [".."]
  {
    ComponentsOfAppend(path, "..");
    assert path + "/" + ".." == path + "/..";
  }

  /** Paths of one segment, and those of a slash and one segment. */
  lemma FirstSegments(name: string)
    requires '/' !in name && name != "" && name != "." && name != ".."
    ensures Components(name) == [name] && Components("/" + name) == [name]
    ensures Components("") == [] && Components(".") == [] && Components("/") == [] && Components("/..") == []
    ensures Components("..") == [".."]
  {
    hide Components;
    OneSegment(name);
    OneSegment("");
    OneSegment(".");
    OneSegment("..");
    assert "/" + "" == "/" && "/" + ".." == "/..";
    assert [] + [name] == [name] && [] + [".."] == [".."];
  }

  lemma OneSegment(segment: string)
    requires '/' !in segment
    ensures Components(segment) == Enter(false, [], segment)
    ensures Components("/" + segment) == Enter(true, [], segment)
  {
    SplitStep(segment, "");
    SplitStep("", segment);
    assert "" + "/" + segment == "/" + segment;
    assert Split("/" + segment) == ["", segment];
    assert ["", segment][1..] == [segment];
    assert Walk(true, [], ["", segment]) == Walk(true, [], [segment]);
    assert Walk(true, [], [segment]) == Walk(true, Enter(true, [], segment), []);
    assert Walk(false, [], [segment]) == Walk(false, Enter(false, [], segment), []);
    if segment != "" {
      assert segment[0] in segment;
    }
  }

  // ---------------------------------------------------------------------------------------------
  // Reserved names
  // ---------------------------------------------------------------------------------------------

  /** Only the 26 capital letters change, to the small ones. */
  lemma LowerMeans(text: string, i: nat)
    requires i < |text|
    ensures |ToLower(text)| == |text|
    ensures 'A' <= text[i] <= 'Z' ==> ToLower(text)[i] as int == text[i] as int + 32
    ensures !('A' <= text[i] <= 'Z') ==> ToLower(text)[i] == text[i]
  {
  }

  /** The reserved names in words. */
  lemma ReservedNamesAre(path: string)
    ensures var first := ToLower(Split(path)[0]);
            IsReserved(path) <==>
              || first == "topology.clab.yaml" || first == "topology.clab.yaml.annotations.json"
              || first == "topology.yml" || first == "topology.yml.annotations.json"
              || first == "clab_templates" || first == "netlab.snapshot.pickle" || first == "netlab.snapshot.yml"
              || first == "netlab.lock" || first == "hosts.yml" || first == "ansible.cfg" || first == "group_vars"
              || first == "host_vars" || first == "node_files" || first == "clab_files" || first == "config"
              || "clab-" <= first || "topology.clab_vars." <= first
  {
    hide ToLower, Split, IsReserved;
    ReservedMeans(path);
  }
}
