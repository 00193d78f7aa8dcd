/** Writing migrated sources into a fresh directory: every conflict is refused before a write, a
    repeated identical run is a no-op, and a failing run removes exactly the files it created,
    even while another process adds files of its own. */
module SourcePublish {
  import opened Options

  datatype Name = Name(text: string)
  datatype Content = Content(data: string)
  datatype Entry = Regular(content: Content) | Irregular

  datatype Destination = SymbolicLink | Nothing | Directory(entries: map<Name, Entry>)

  /** One thing to write; the list is in dictionary order. */
  type Files = seq<(Name, Content)>

  /** What the outside does around one write: files another process adds first, then how the
      exclusive create and the write of this file go. */
  datatype Fault = Fine | OpenFails | WriteFails
  datatype Around = Around(arrivals: map<Name, Entry>, fault: Fault)

  datatype Outcome = Published | AlreadyPublished | Refused | DirectoryFailed | RolledBack

  predicate SafeCharacter(c: char) {
    'a' <= c <= 'z' || 'A' <= c <= 'Z' || '0' <= c <= '9' || c == '_' || c == '.' || c == '-'
  }

  /** The file-name pattern: safe characters and the suffix `.json`. */
  predicate SafeName(n: Name) {
    && |n.text| >= 6 && n.text[|n.text| - 5..] == ".json"
    && forall i :: 0 <= i < |n.text| - 5 ==> SafeCharacter(n.text[i])
  }

  predicate DistinctNames(files: Files) {
    forall i, j :: 0 <= i < j < |files| ==> files[i].0 != files[j].0
  }

  function NameSet(files: Files): (r: set<Name>)
    ensures forall n :: n in r <==> exists i :: 0 <= i < |files| && files[i].0 == n
  {
    set i | 0 <= i < |files| :: files[i].0
  }

  /** The entries that hold exactly these files. */
  function AsEntries(files: Files): map<Name, Entry> {
    if files == [] then map[]
    else AsEntries(files[..|files| - 1])[files[|files| - 1].0 := Regular(files[|files| - 1].1)]
  }

  lemma {:induction false} NamesGrow(files: Files)
    requires files != []
    ensures NameSet(files) == NameSet(files[..|files| - 1]) + {files[|files| - 1].0}
  {
    var front, last := files[..|files| - 1], files[|files| - 1];
    forall n | n in NameSet(files) ensures n in NameSet(front) + {last.0} {
      var i :| 0 <= i < |files| && files[i].0 == n;
      assert i < |front| ==> front[i].0 == n;
    }
    forall n | n in NameSet(front) ensures n in NameSet(files) {
      var i :| 0 <= i < |front| && front[i].0 == n;
      assert files[i].0 == n;
    }
    assert last.0 in NameSet(files);
  }

  lemma {:induction false} EntryNames(files: Files)
    ensures AsEntries(files).Keys == NameSet(files)
  {
    if files != [] {
      EntryNames(files[..|files| - 1]);
      NamesGrow(files);
    }
  }

  lemma {:induction false} EntryContents(files: Files, i: nat)
    requires DistinctNames(files) && i < |files|
    ensures files[i].0 in AsEntries(files) && AsEntries(files)[files[i].0] == Regular(files[i].1)
  {
    if i < |files| - 1 {
      EntryContents(files[..|files| - 1], i);
    }
  }

  lemma {:induction false} EntriesHold(files: Files)
    requires DistinctNames(files)
    ensures AsEntries(files).Keys == NameSet(files)
    ensures forall i :: 0 <= i < |files| ==>
            files[i].0 in AsEntries(files) && AsEntries(files)[files[i].0] == Regular(files[i].1)
  {
    EntryNames(files);
    forall i | 0 <= i < |files| ensures files[i].0 in AsEntries(files)
      && AsEntries(files)[files[i].0] == Regular(files[i].1) {
      EntryContents(files, i);
    }
  }

  /** What another process really adds: it never replaces a file that is there. */
  function Arrivals(entries: map<Name, Entry>, a: Around): map<Name, Entry> {
    a.arrivals - entries.Keys
  }

  /** What other processes have put there by the time the first `k` creates are tried, told from what they
      offer and from the names that this call has taken by then. */
  function Foreign(wanted: Files, around: seq<Around>, k: nat): map<Name, Entry>
    requires k <= |wanted| && k <= |around|
  {
    if k == 0 then map[]
    else
      var before := Foreign(wanted, around, k - 1);
      before + (around[k - 1].arrivals - before.Keys - NameSet(wanted[..k - 1]))
  }

  /** The `i`-th create fails: it cannot be opened or written, or another process has taken the name. */
  predicate StopsAt(wanted: Files, around: seq<Around>, i: nat)
    requires i < |wanted| && i < |around|
  {
    around[i].fault != Fine || wanted[i].0 in Foreign(wanted, around, i + 1)
  }

  /** The first create that fails. */
  function FirstStop(wanted: Files, around: seq<Around>, k: nat): (r: Option<nat>)
    requires k <= |wanted| && k <= |around|
    ensures r.Some? ==> r.value < k && StopsAt(wanted, around, r.value)
    ensures forall i :: 0 <= i < (if r.Some? then r.value else k) ==> !StopsAt(wanted, around, i)
  {
    if k == 0 then None
    else match FirstStop(wanted, around, k - 1)
      case Some(i) => Some(i)
      case None => if StopsAt(wanted, around, k - 1) then Some(k - 1) else None
  }

  /** `entries` is the disjoint union of the files others put there and the files of this call. */
  ghost predicate Split(entries: map<Name, Entry>, foreign: map<Name, Entry>, mine: map<Name, Entry>) {
    foreign.Keys !! mine.Keys && entries == foreign + mine
  }

  lemma {:induction false} SplitArrive(entries: map<Name, Entry>, foreign: map<Name, Entry>, mine: map<Name, Entry>,
      arrivals: map<Name, Entry>)
    requires Split(entries, foreign, mine)
    ensures Split(entries + (arrivals - entries.Keys), foreign + (arrivals - foreign.Keys - mine.Keys), mine)
  {
    assert arrivals - entries.Keys == arrivals - foreign.Keys - mine.Keys;
  }

  lemma {:induction false} SplitCreate(entries: map<Name, Entry>, foreign: map<Name, Entry>, mine: map<Name, Entry>,
      n: Name, e: Entry)
    requires Split(entries, foreign, mine) && n !in entries
    ensures Split(entries[n := e], foreign, mine[n := e])
  {
  }

  datatype Written = Whole | Partial | NotCreated

  class Disk {
    var destination: Destination

    constructor (destination: Destination)
      ensures this.destination == destination
    {
      this.destination := destination;
    }

    /** One exclusive create and write. */
    method WriteOne(name: Name, content: Content, a: Around) returns (w: Written)
      requires destination.Directory?
      modifies this
      ensures destination.Directory?
      ensures var seen := old(destination).entries + Arrivals(old(destination).entries, a);
              && (w.NotCreated? <==> a.fault == OpenFails || name in seen)
              && (w.Whole? <==> a.fault == Fine && name !in seen)
              && destination.entries == if w.NotCreated? then seen
                 else seen[name := Regular(if w.Whole? then content else Content(""))]
    {
      var entries := destination.entries + Arrivals(destination.entries, a);
      destination := Directory(entries);
      if a.fault == OpenFails || name in entries {
        return NotCreated;
      }
      destination := Directory(entries[name := Regular(Content(""))]);
      if a.fault == WriteFails {
        return Partial;
      }
      destination := Directory(entries[name := Regular(content)]);
      return Whole;
    }

    /** The rollback: only the files this call created are removed, newest first. */
    method RemoveCreated(created: seq<Name>, ghost foreign: map<Name, Entry>, ghost mine: map<Name, Entry>)
      requires destination.Directory? && Split(destination.entries, foreign, mine)
      requires forall n :: n in mine <==> n in created
      modifies this
      ensures destination == Directory(foreign)
    {
      var left := |created|;
      assert created[..left] == created;
      while left > 0
        invariant 0 <= left <= |created| && destination.Directory?
        invariant forall n :: n in destination.entries ==> n in foreign || n in created[..left]
        invariant forall n :: n in foreign ==> n in destination.entries && destination.entries[n] == foreign[n]
      {
        left := left - 1;
        assert created[..left + 1] == created[..left] + [created[left]];
        assert created[left] in mine;
        destination := Directory(destination.entries - {created[left]});
      }
      assert created[..0] == [];
      assert destination.entries == foreign;
    }

    /** The exclusive creates, in order. What is left is told from `wanted` and `around` alone: the files of
        others, and all of this call's files or none. */
    method WriteAll(wanted: Files, around: seq<Around>) returns (done: bool)
      requires DistinctNames(wanted) && |around| >= |wanted|
      requires destination == Directory(map[])
      modifies this
      ensures destination.Directory? && (done <==> FirstStop(wanted, around, |wanted|).None?)
      ensures done ==> Split(destination.entries, Foreign(wanted, around, |wanted|), AsEntries(wanted))
      ensures !done ==> destination.entries == Foreign(wanted, around, FirstStop(wanted, around, |wanted|).value + 1)
    {
      hide Foreign, StopsAt, FirstStop, AsEntries, Split, DistinctNames, NameSet;
      var created: seq<Name> := [];
      NothingYet(wanted, around);
      for i := 0 to |wanted|
        invariant destination.Directory?
                  && Split(destination.entries, Foreign(wanted, around, i), AsEntries(wanted[..i]))
        invariant forall n :: n in AsEntries(wanted[..i]) <==> n in created
        invariant FirstStop(wanted, around, i).None?
      {
        var (name, content) := wanted[i];
        NextName(wanted, i);
        EntriesHold(wanted[..i]);
        var w := Create(wanted, i, around, name, content);
        if !w.Whole? {
          if w.Partial? {
            created := created + [name];
          }
          RemoveCreated(created, Foreign(wanted, around, i + 1), CreatedBy(wanted, i, w));
          StopIsFirst(wanted, around, i, |wanted|);
          return false;
        }
        OneMore(wanted, around, i);
        created := created + [name];
      }
      assert wanted[..|wanted|] == wanted;
      done := true;
    }

    /** The `i`-th create, among the files of others and the `i` files created so far. */
    method Create(wanted: Files, i: nat, around: seq<Around>, name: Name, content: Content) returns (w: Written)
      requires destination.Directory? && DistinctNames(wanted) && i < |wanted| && i < |around|
               && wanted[i] == (name, content)
      requires name !in NameSet(wanted[..i]) && AsEntries(wanted[..i]).Keys == NameSet(wanted[..i])
      requires Split(destination.entries, Foreign(wanted, around, i), AsEntries(wanted[..i]))
      modifies this
      ensures destination.Directory?
              && Split(destination.entries, Foreign(wanted, around, i + 1), CreatedBy(wanted, i, w))
      ensures w.Whole? <==> !StopsAt(wanted, around, i)
    {
      ghost var before := destination.entries;
      SplitArrive(before, Foreign(wanted, around, i), AsEntries(wanted[..i]), around[i].arrivals);
      w := WriteOne(name, content, around[i]);
      if !w.NotCreated? {
        SplitCreate(before + Arrivals(before, around[i]), Foreign(wanted, around, i + 1), AsEntries(wanted[..i]), name,
          destination.entries[name]);
      }
    }

    /** Whether a directory that is not empty already holds exactly what is wanted. */
    method Matches(wanted: Files) returns (same: bool)
      requires DistinctNames(wanted) && destination.Directory?
      ensures same <==> destination.entries == AsEntries(wanted)
    {
      EntriesHold(wanted);
      if destination.entries.Keys != NameSet(wanted) {
        return false;
      }
      for i := 0 to |wanted|
        invariant forall j :: 0 <= j < i ==> destination.entries[wanted[j].0] == Regular(wanted[j].1)
      {
        assert wanted[i].0 in NameSet(wanted);
        if destination.entries[wanted[i].0] != Regular(wanted[i].1) {
          return false;
        }
      }
      assert destination.entries == AsEntries(wanted);
      return true;
    }

    /** `publish`: `wanted` is the dictionary of files and manifest, `canCreate` whether the directory
        can be made. */
    method Publish(wanted: Files, canCreate: bool, around: seq<Around>) returns (r: Outcome)
      requires DistinctNames(wanted) && |around| >= |wanted|
      modifies this
      ensures r == Verdict(old(destination), wanted, canCreate, around)
      ensures r == AlreadyPublished || r == Refused || r == DirectoryFailed ==> destination == old(destination)
      ensures r == Published ==>
              destination.Directory? && Split(destination.entries, Foreign(wanted, around, |wanted|), AsEntries(wanted))
      ensures r == RolledBack ==>
              destination == Directory(Foreign(wanted, around, FirstStop(wanted, around, |wanted|).value + 1))
    {
      if destination.SymbolicLink? {
        return Refused;
      }
      if exists i :: 0 <= i < |wanted| && !SafeName(wanted[i].0) {
        return Refused;
      }
      if destination.Directory? && destination.entries != map[] {
        var same := Matches(wanted);
        return if same then AlreadyPublished else Refused;
      }
      if destination.Nothing? {
        if !canCreate {
          return DirectoryFailed;
        }
        destination := Directory(map[]);
      }
      var done := WriteAll(wanted, around);
      r := if done then Published else RolledBack;
    }
  }

  /** The files of this call after its `i`-th create ended like this. */
  ghost function CreatedBy(wanted: Files, i: nat, w: Written): map<Name, Entry>
    requires i < |wanted|
  {
    match w
    case Whole => AsEntries(wanted[..i])[wanted[i].0 := Regular(wanted[i].1)]
    case Partial => AsEntries(wanted[..i])[wanted[i].0 := Regular(Content(""))]
    case NotCreated => AsEntries(wanted[..i])
  }

  lemma {:induction false} NothingYet(wanted: Files, around: seq<Around>)
    requires |around| >= |wanted|
    ensures Foreign(wanted, around, 0) == map[] && AsEntries(wanted[..0]) == map[] && FirstStop(wanted, around, 0).None?
    ensures Split(map[], Foreign(wanted, around, 0), AsEntries(wanted[..0]))
  {
  }

  lemma {:induction false} OneMore(wanted: Files, around: seq<Around>, i: nat)
    requires i < |wanted| <= |around| && FirstStop(wanted, around, i).None? && !StopsAt(wanted, around, i)
    ensures FirstStop(wanted, around, i + 1).None? && AsEntries(wanted[..i + 1]) == CreatedBy(wanted, i, Whole)
  {
    assert wanted[..i + 1][..i] == wanted[..i];
  }

  lemma {:induction false} StopIsFirst(wanted: Files, around: seq<Around>, i: nat, k: nat)
    requires i < k <= |wanted| && k <= |around| && FirstStop(wanted, around, i).None? && StopsAt(wanted, around, i)
    ensures FirstStop(wanted, around, k) == Some(i)
  {
    if k > i + 1 {
      StopIsFirst(wanted, around, i, k - 1);
    }
  }

  /** What `publish` answers: conflicts first, then whether a create fails. */
  function Verdict(destination: Destination, wanted: Files, canCreate: bool, around: seq<Around>): Outcome
    requires |around| >= |wanted|
  {
    if destination.SymbolicLink? || !AllSafe(wanted) then Refused
    else if destination.Directory? && destination.entries != map[] then
      if destination.entries == AsEntries(wanted) then AlreadyPublished else Refused
    else if destination.Nothing? && !canCreate then DirectoryFailed
    else if FirstStop(wanted, around, |wanted|).None? then Published else RolledBack
  }

  /** What others put there stays theirs: none of it is ever lost, whatever this call does. */
  lemma {:induction false} ForeignOnlyGrows(wanted: Files, around: seq<Around>, i: nat, k: nat)
    requires i <= k <= |wanted| && k <= |around|
    ensures forall n :: n in Foreign(wanted, around, i) ==>
              n in Foreign(wanted, around, k) && Foreign(wanted, around, k)[n] == Foreign(wanted, around, i)[n]
  {
    if i < k {
      ForeignOnlyGrows(wanted, around, i, k - 1);
    }
  }

  predicate AllSafe(wanted: Files) {
    forall i :: 0 <= i < |wanted| ==> SafeName(wanted[i].0)
  }

  /** Nothing goes wrong and nobody interferes around the first `n` writes. */
  ghost predicate Quiet(around: seq<Around>, n: nat)
    requires n <= |around|
  {
    forall j :: 0 <= j < n ==> around[j] == Around(map[], Fine)
  }

  ghost predicate NoArrivals(around: seq<Around>, n: nat)
    requires n <= |around|
  {
    forall j :: 0 <= j < n ==> around[j].arrivals == map[]
  }

  lemma {:induction false} NobodyElse(wanted: Files, around: seq<Around>, k: nat)
    requires k <= |wanted| && k <= |around| && NoArrivals(around, k)
    ensures Foreign(wanted, around, k) == map[]
  {
    if k > 0 {
      NobodyElse(wanted, around, k - 1);
    }
  }

  lemma {:induction false} QuietSucceeds(wanted: Files, around: seq<Around>)
    requires |around| >= |wanted| && Quiet(around, |wanted|)
    ensures FirstStop(wanted, around, |wanted|).None?
  {
    forall i | 0 <= i < |wanted| ensures !StopsAt(wanted, around, i) {
      NobodyElse(wanted, around, i + 1);
    }
  }

  lemma {:induction false} NextName(files: Files, i: nat)
    requires DistinctNames(files) && i < |files|
    ensures DistinctNames(files[..i]) && files[i].0 !in NameSet(files[..i])
  {
    assert forall j :: 0 <= j < i ==> files[..i][j] == files[j];
  }

  lemma {:induction false} Alone(wanted: Files, around: seq<Around>)
    requires |around| >= |wanted| && NoArrivals(around, |wanted|)
    ensures Foreign(wanted, around, |wanted|) == map[]
    ensures var stop := FirstStop(wanted, around, |wanted|);
            stop.Some? ==> Foreign(wanted, around, stop.value + 1) == map[]
  {
    NobodyElse(wanted, around, |wanted|);
    match FirstStop(wanted, around, |wanted|)
    case Some(i) => NobodyElse(wanted, around, i + 1);
    case None =>
  }

  /** A run in which nobody interferes leaves all the files or none. */
  method PublishAlone(disk: Disk, wanted: Files, around: seq<Around>) returns (r: Outcome)
    requires DistinctNames(wanted) && |around| >= |wanted| && AllSafe(wanted) && NoArrivals(around, |wanted|)
    requires disk.destination in {Nothing, Directory(map[]), Directory(AsEntries(wanted))}
    modifies disk
    ensures old(disk.destination) == Directory(AsEntries(wanted)) && AsEntries(wanted) != map[] ==>
            r == AlreadyPublished
    ensures old(disk.destination) != Directory(AsEntries(wanted)) ==>
              r == if FirstStop(wanted, around, |wanted|).None? then Published else RolledBack
    ensures disk.destination == Directory(if r == RolledBack then map[] else AsEntries(wanted))
  {
    Alone(wanted, around);
    r := disk.Publish(wanted, true, around);
  }

  /** A repeat of a run that was not disturbed changes nothing; a repeat after a rolled back run
      starts from where the first one did and can still succeed. */
  method PublishAgain(disk: Disk, wanted: Files, first: seq<Around>, second: seq<Around>)
    returns (a: Outcome, b: Outcome)
    requires DistinctNames(wanted) && wanted != [] && |first| >= |wanted| && |second| >= |wanted|
    requires disk.destination.Nothing? && AllSafe(wanted) && Quiet(second, |wanted|)
    requires NoArrivals(first, |wanted|)
    modifies disk
    ensures disk.destination == Directory(AsEntries(wanted))
    ensures a == Published ==> b == AlreadyPublished
    ensures a == RolledBack ==> b == Published
    ensures a == Published || a == RolledBack
  {
    assert wanted[0].0 in NameSet(wanted);
    EntriesHold(wanted);
    QuietSucceeds(wanted, second);
    a := PublishAlone(disk, wanted, first);
    b := PublishAlone(disk, wanted, second);
  }
}
