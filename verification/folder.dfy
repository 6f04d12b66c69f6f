/**
 readFilesInFolder: every directory entry whose name the regular
 expression `.*\.wav` matches is counted and gets one processing task.
 Go's MatchString is unanchored, so the test is really "contains .wav".
 */
module Folder {
  import opened Wrappers

  const Extension: string := ".wav"

  /** `pat` occurs in `s` starting at index `i`. */
  predicate OccursAt(s: string, pat: string, i: nat) {
    i + |pat| <= |s| && s[i..i + |pat|] == pat
  }

  /** `t` matches `.*\.wav` as a whole: any characters but a newline, then ".wav". */
  predicate WholeMatch(t: string) {
    |t| >= 4 && t[|t| - 4..] == Extension && forall k :: 0 <= k < |t| - 4 ==> t[k] != '\n'
  }

  /** What MatchString reports: some substring matches the expression as a whole. */
  ghost predicate RegexMatches(s: string) {
    exists i: nat, j: nat :: i <= j <= |s| && WholeMatch(s[i..j])
  }

  /** Search for ".wav" from index `i` on. */
  function ContainsFrom(s: string, i: nat): (b: bool)
    ensures b <==> exists k: nat :: i <= k && OccursAt(s, Extension, k)
    decreases |s| - i
  {
    if i + 4 > |s| then false
    else if s[i..i + 4] == Extension then
      assert OccursAt(s, Extension, i);
      true
    else
      var rest := ContainsFrom(s, i + 1);
      assert forall k: nat :: i <= k && OccursAt(s, Extension, k) ==> k == i || i + 1 <= k;
      rest
  }

  /** The regular expression matches exactly the names that contain ".wav". */
  lemma RegexIsSubstring(s: string)
    ensures RegexMatches(s) <==> exists k: nat :: OccursAt(s, Extension, k)
  {
    if RegexMatches(s) {
      var i: nat, j: nat :| i <= j <= |s| && WholeMatch(s[i..j]);
      var t := s[i..j];
      assert t[|t| - 4..] == s[j - 4..j];
      assert OccursAt(s, Extension, j - 4);
    }
    if exists k: nat :: OccursAt(s, Extension, k) {
      var k: nat :| OccursAt(s, Extension, k);
      assert WholeMatch(s[k..k + 4]);
    }
  }

  /** The filter applied to one name. */
  function IsWavName(name: string): (b: bool)
    ensures b <==> RegexMatches(name)
  {
    RegexIsSubstring(name);
    ContainsFrom(name, 0)
  }

  /** Case-sensitive, and not anchored at the end. */
  lemma NameExamples()
    ensures IsWavName("kick.wav") && IsWavName("a.wav.bak")
    ensures !IsWavName("kick.WAV") && !IsWavName("wav") && !IsWavName(".wa")
  {
    assert OccursAt("kick.wav", Extension, 4);
    assert OccursAt("a.wav.bak", Extension, 1);
    var upper := "kick.WAV";
    forall k: nat
      ensures !OccursAt(upper, Extension, k)
    {
      if k + 4 <= |upper| {
        assert upper[k..k + 4][3] == upper[k + 3] != 'v';
      }
    }
  }

  /** The matching names, in directory order. */
  function WavNames(names: seq<string>): (r: seq<string>)
    ensures |r| <= |names|
    ensures forall k :: 0 <= k < |r| ==> IsWavName(r[k]) && r[k] in names
    ensures forall k :: 0 <= k < |names| && IsWavName(names[k]) ==> names[k] in r
  {
    if names == [] then []
    else
      var prev := WavNames(names[..|names| - 1]);
      var last := names[|names| - 1];
      assert forall k :: 0 <= k < |names| - 1 ==> names[k] == names[..|names| - 1][k];
      if IsWavName(last) then prev + [last] else prev
  }

  /** Every matching name is kept as often as the listing holds it, every other name never. */
  lemma {:induction false} WavNamesCounts(names: seq<string>)
    ensures forall x :: multiset(WavNames(names))[x] == if IsWavName(x) then multiset(names)[x] else 0
  {
    if names != [] {
      var init := names[..|names| - 1];
      var last := names[|names| - 1];
      assert names == init + [last];
      WavNamesCounts(init);
    }
  }

  /** One processing task: the entry's name and the label of its folder. */
  datatype Task = Task(name: string, instrument: string)

  /** The count readFilesInFolder returns and the tasks it launched. */
  datatype Dispatch = Dispatch(expecting: nat, tasks: seq<Task>)

  /**
   readFilesInFolder over a directory listing; None for a listing that
   could not be read, where the run ends in log.Fatal.
   */
  method ReadFilesInFolder(listing: Option<seq<string>>, instrument: string) returns (r: Option<Dispatch>)
    ensures r.None? <==> listing.None?
    ensures r.Some? ==> r.value.expecting == |r.value.tasks| == |WavNames(listing.value)|
    ensures r.Some? ==> forall k :: 0 <= k < |r.value.tasks| ==>
      r.value.tasks[k] == Task(WavNames(listing.value)[k], instrument)
  {
    if listing.None? {
      return None;
    }
    var files := listing.value;
    var expecting := 0;
    var tasks: seq<Task> := [];
    var i := 0;
    while i < |files|
      invariant 0 <= i <= |files|
      invariant expecting == |tasks| == |WavNames(files[..i])|
      invariant forall k :: 0 <= k < |tasks| ==> tasks[k] == Task(WavNames(files[..i])[k], instrument)
    {
      assert files[..i + 1][..i] == files[..i];
      if IsWavName(files[i]) {
        expecting := expecting + 1;
        tasks := tasks + [Task(files[i], instrument)];
      }
      i := i + 1;
    }
    assert files[..|files|] == files;
    return Some(Dispatch(expecting, tasks));
  }

  /** The folders and labels of extractAllWavFeaturesToCsv, in order; snare files are labelled "Kick". */
  const Categories: seq<(string, string)> := [
    ("./data/kick", "Kick"),
    ("./data/hat", "Hat"),
    ("./data/other", "Other"),
    ("./data/percussion", "Percussion"),
    ("./data/snare", "Kick")
  ]

  /** The number of matching names over the first `c` listings, all of them readable. */
  function TotalWavNames(listings: seq<Option<seq<string>>>, c: nat): nat
    requires c <= |listings|
    requires forall c' :: 0 <= c' < c ==> listings[c'].Some?
  {
    if c == 0 then 0 else TotalWavNames(listings, c - 1) + |WavNames(listings[c - 1].value)|
  }

  /** The tasks readFilesInFolder starts for one listing: one per matching name, in order, all with `instrument`. */
  function FolderTasks(names: seq<string>, instrument: string): seq<Task> {
    seq(|WavNames(names)|, k requires 0 <= k < |WavNames(names)| => Task(WavNames(names)[k], instrument))
  }

  /** The tasks of the first `c` folders, each folder's tasks carrying that folder's label. */
  function AllTasks(listings: seq<Option<seq<string>>>, c: nat): seq<Task>
    requires c <= |listings| && c <= |Categories|
    requires forall c' :: 0 <= c' < c ==> listings[c'].Some?
  {
    if c == 0 then [] else AllTasks(listings, c - 1) + FolderTasks(listings[c - 1].value, Categories[c - 1].1)
  }

  /**
   The dispatch part of extractAllWavFeaturesToCsv: the five folders in
   order, their counts added up, one task per counted name; an unreadable
   folder ends the run.
   */
  method DispatchAll(listings: seq<Option<seq<string>>>) returns (r: Option<Dispatch>)
    requires |listings| == |Categories|
    ensures r.None? <==> exists c :: 0 <= c < |listings| && listings[c].None?
    ensures r.Some? ==> r.value.expecting == |r.value.tasks| == TotalWavNames(listings, |listings|)
    ensures r.Some? ==> r.value.tasks == AllTasks(listings, |listings|)
    ensures r.Some? ==> forall t :: t in r.value.tasks ==> IsWavName(t.name) && t.instrument in {"Kick", "Hat", "Other", "Percussion"}
  {
    var expecting := 0;
    var tasks: seq<Task> := [];
    var c := 0;
    while c < |Categories|
      invariant 0 <= c <= |Categories|
      invariant forall c' :: 0 <= c' < c ==> listings[c'].Some?
      invariant expecting == |tasks| == TotalWavNames(listings, c)
      invariant tasks == AllTasks(listings, c)
    {
      var found := ReadFilesInFolder(listings[c], Categories[c].1);
      if found.None? {
        return None;
      }
      assert found.value.tasks == FolderTasks(listings[c].value, Categories[c].1);
      expecting := expecting + found.value.expecting;
      tasks := tasks + found.value.tasks;
      c := c + 1;
    }
    AllTasksMatch(listings, |Categories|);
    return Some(Dispatch(expecting, tasks));
  }

  /** Every dispatched task names a matching file and carries one of the four labels. */
  lemma {:induction false} AllTasksMatch(listings: seq<Option<seq<string>>>, c: nat)
    requires c <= |listings| && c <= |Categories|
    requires forall c' :: 0 <= c' < c ==> listings[c'].Some?
    ensures forall t :: t in AllTasks(listings, c) ==> IsWavName(t.name) && t.instrument in {"Kick", "Hat", "Other", "Percussion"}
  {
    if c > 0 {
      AllTasksMatch(listings, c - 1);
      var names := WavNames(listings[c - 1].value);
      assert forall t :: t in FolderTasks(listings[c - 1].value, Categories[c - 1].1) ==> t.name in names;
    }
  }

  /** The fifth folder, ./data/snare, hands its files to processWav labelled "Kick". */
  lemma SnareIsKick(listings: seq<Option<seq<string>>>)
    requires |listings| == |Categories|
    requires forall c :: 0 <= c < |listings| ==> listings[c].Some?
    ensures Categories[4].0 == "./data/snare"
    ensures forall t :: t in FolderTasks(listings[4].value, Categories[4].1) ==> t.instrument == "Kick"
    ensures AllTasks(listings, |listings|)[|AllTasks(listings, 4)|..] == FolderTasks(listings[4].value, "Kick")
  {
  }
}
