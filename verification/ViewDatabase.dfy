/** ViewDatabase and the age-out of InMemoryView.cpp on the heap: file nodes threaded on an intrusive list
    whose back links are addresses of the pointers that point at the nodes. */
module ViewDatabase {
  import opened Filters
  import opened ViewModel

  /** The address of a file pointer: `latestFile_`, a file's `next`, or nullptr. */
  datatype Slot = Unlinked | Latest(db: ViewDatabase) | NextOf(f: File)

  class File {
    const name: Name
    var present: bool
    var otime: Stamp
    var next: File?
    var prev: Slot

    constructor (name: Name)
      ensures this.name == name && present && next == null && prev == Unlinked
    {
      this.name, present, otime, next, prev := name, true, Stamp(0, 0), null, Unlinked;
    }

    ghost function Value(): Entry
      reads this`present, this`otime
    {
      Entry(name, present, otime)
    }
  }

  ghost predicate NoDup(s: seq<File>) { forall i, j :: 0 <= i < j < |s| ==> s[i] != s[j] }

  lemma RemovalKeepsDistinct(s: seq<File>, i: nat)
    requires NoDup(s) && i < |s|
    ensures NoDup(s[..i] + s[i + 1..])
    ensures forall j, k {:trigger s[j], s[k]} :: 0 <= j < |s| && 0 <= k < |s| && s[j] == s[k] ==> j == k
  {}

  class ViewDatabase {
    var latestFile: File?
    /** The file maps of all directories, by full path. */
    var files: map<Name, File>
    var mostRecentTick: nat
    var lastAgeOutTick: nat
    ghost var contents: seq<File>
    ghost var list: seq<Entry>

    // ----- The list

    ghost function NodeAt(i: nat): File?
      reads this`contents
    {
      if i < |contents| then contents[i] else null
    }

    ghost function SlotAt(i: nat): Slot
      requires i <= |contents|
      reads this`contents
    {
      if i == 0 then Latest(this) else NextOf(contents[i - 1])
    }

    /** The links spell `contents`: forward by `next`, backward by the slot addresses. */
    ghost predicate Linked()
      reads this`latestFile, this`contents, contents`next, contents`prev
    {
      && NoDup(contents)
      && latestFile == NodeAt(0)
      && (forall i {:trigger contents[i].next} :: 0 <= i < |contents| ==> contents[i].next == NodeAt(i + 1))
      && (forall i {:trigger contents[i].prev} :: 0 <= i < |contents| ==> contents[i].prev == SlotAt(i))
    }

    ghost function At(c: seq<File>, i: nat): File? { if i < |c| then c[i] else null }

    ghost function Before(c: seq<File>, i: nat): Slot
      requires i <= |c|
    {
      if i == 0 then Latest(this) else NextOf(c[i - 1])
    }

    /** watchman_file::removeFromFileList on the node at position i, or on a node that was never linked. */
    method RemoveFromFileList(file: File, ghost i: nat)
      requires Linked()
      requires if file.prev == Unlinked then file.next == null else i < |contents| && contents[i] == file
      modifies this`latestFile, this`contents, contents`next, contents`prev
      ensures Linked()
      ensures contents == if old(file.prev) == Unlinked then old(contents)
                          else old(contents)[..i] + old(contents)[i + 1..]
    {
      hide NoDup;
      if file.prev == Unlinked {
        return;
      }
      ghost var c := contents;
      RemovalKeepsDistinct(c, i);
      Detach(file, i);
      contents := contents[..i] + contents[i + 1..];
      Relinked(c, i);
    }

    /** The pointer work at position i: the neighbours point past the node. */
    method Detach(file: File, ghost i: nat)
      requires Linked() && i < |contents| && contents[i] == file
      modifies this`latestFile, contents`next, contents`prev
      ensures latestFile == (if i == 0 then At(contents, 1) else At(contents, 0))
      ensures forall o {:trigger contents[o].next} :: 0 <= o < |contents| && o != i ==>
                contents[o].next == At(contents, if o + 1 == i then i + 1 else o + 1)
      ensures forall o {:trigger contents[o].prev} :: 0 <= o < |contents| && o != i ==>
                contents[o].prev == Before(contents, if o == i + 1 then i else o)
    {
      hide NoDup;
      ghost var c := contents;
      RemovalKeepsDistinct(c, i);
      assert file.next == NodeAt(i + 1) && file.prev == SlotAt(i);
      assert i + 1 < |c| ==> c[i + 1] != c[i];
      assert i > 0 ==> c[i - 1] != c[i];
      if file.next != null {
        file.next.prev := file.prev;
      }
      match file.prev {
        case Latest(db) => db.latestFile := file.next;
        case NextOf(f) => f.next := file.next;
      }
      forall o | 0 <= o < |c| && o != i
        ensures c[o].next == At(c, if o + 1 == i then i + 1 else o + 1)
        ensures c[o].prev == Before(c, if o == i + 1 then i else o)
      {
        assert old(c[o].next) == old(NodeAt(o + 1)) && old(c[o].prev) == old(SlotAt(o));
        assert i > 0 && o + 1 != i ==> c[o] != c[i - 1];
        assert i + 1 < |c| && o != i + 1 ==> c[o] != c[i + 1];
      }
    }

    /** The links around a node that was taken out. */
    lemma Relinked(c: seq<File>, i: nat)
      requires i < |c| && contents == c[..i] + c[i + 1..] && NoDup(contents)
      requires latestFile == (if i == 0 then At(c, 1) else At(c, 0))
      requires forall o {:trigger c[o].next} :: 0 <= o < |c| && o != i ==>
                 c[o].next == At(c, if o + 1 == i then i + 1 else o + 1)
      requires forall o {:trigger c[o].prev} :: 0 <= o < |c| && o != i ==>
                 c[o].prev == Before(c, if o == i + 1 then i else o)
      ensures Linked()
    {
      hide NoDup;
      forall j | 0 <= j < |contents|
        ensures contents[j].next == NodeAt(j + 1) && contents[j].prev == SlotAt(j)
      {
        var o := if j < i then j else j + 1;
        assert contents[j] == c[o];
        Shifted(c, i, j, c[o].next, c[o].prev);
      }
    }

    /** The place of a node in the shorter list, given its links in the longer one. */
    lemma Shifted(c: seq<File>, i: nat, j: nat, next: File?, slot: Slot)
      requires i < |c| && contents == c[..i] + c[i + 1..] && j < |contents|
      requires var o := if j < i then j else j + 1;
               && next == At(c, if o + 1 == i then i + 1 else o + 1) && slot == Before(c, if o == i + 1 then i else o)
      ensures next == NodeAt(j + 1) && slot == SlotAt(j)
    {}

    method InsertAtHeadOfFileList(file: File)
      requires Linked() && file !in contents
      modifies this`latestFile, this`contents, contents`prev, file`next, file`prev
      ensures Linked() && contents == [file] + old(contents)
    {
      ghost var c := contents;
      assert forall j :: 0 <= j < |c| ==> c[j] in c && c[j] != file;
      file.next := latestFile;
      if file.next != null {
        file.next.prev := NextOf(file);
      }
      latestFile := file;
      file.prev := Latest(this);
      contents := [file] + contents;
      forall j | 0 <= j < |contents|
        ensures contents[j].next == NodeAt(j + 1) && contents[j].prev == SlotAt(j)
      {
        if j > 0 {
          assert contents[j] == c[j - 1];
          assert c[j - 1].next == old(c[j - 1].next);
          assert j != 1 ==> c[j - 1].prev == old(c[j - 1].prev);
        }
      }
    }

    // ----- The view

    /** The list as a value. */
    ghost predicate Shown()
      reads this`list, this`contents, contents`present, contents`otime
    {
      |list| == |contents| && forall i {:trigger list[i]} :: 0 <= i < |list| ==> list[i] == contents[i].Value()
    }

    ghost predicate Filed()
      reads this`files, this`contents
    {
      && (forall n :: n in files ==> files[n].name == n)
      && (forall f :: f in contents ==> f.name in files && files[f.name] == f)
    }

    ghost function Model(): View
      reads this
    {
      View(list, mostRecentTick, lastAgeOutTick)
    }

    ghost predicate Valid()
      reads this, contents
    {
      && Linked() && Shown() && Filed() && Wf(Model())
      && forall n :: n in files ==> files[n] in contents
    }

    method GetOrCreateChildFile(name: Name) returns (file: File)
      requires Valid()
      modifies this`files
      ensures Linked() && Shown() && Filed() && files == old(files)[name := file] && file.name == name
      ensures if name in old(files) then file in contents
              else fresh(file) && file !in contents && file.prev == Unlinked && file.next == null
      ensures forall n :: n in files ==> files[n] in contents || n == name
    {
      if name in files {
        return files[name];
      }
      file := new File(name);
      files := files[name := file];
    }

    /** Stamps the file and moves it to the head. */
    method MarkFileChanged(file: File, otime: Stamp)
      requires Linked() && Filed() && file.name in files && files[file.name] == file
      requires file !in contents ==> file.prev == Unlinked && file.next == null
      requires |list| == |contents|
      requires forall i {:trigger list[i]} :: 0 <= i < |list| && contents[i] != file ==> list[i] == contents[i].Value()
      requires forall i :: 0 <= i < |list| ==> list[i].name == contents[i].name
      requires forall n :: n in files ==> files[n] in contents || n == file.name
      requires Wf(Model()) && otime.ticks == mostRecentTick
      modifies this`latestFile, this`contents, this`list, contents`next, contents`prev,
               file`next, file`prev, file`otime
      ensures Valid() && Model() == Changed(old(Model()), file.name, old(file.present), otime.timestamp)
    {
      hide NoDup, Distinct, Ordered, Without, Dropped, ViewDatabase.Linked, ViewDatabase.Shown;
      ghost var c, l := contents, list;
      file.otime := otime;
      MoveToHead(file);
      list := [file.Value()] + Without(list, file.name);
      assert otime == Stamp(mostRecentTick, otime.timestamp);
      assert Model() == Changed(old(Model()), file.name, old(file.present), otime.timestamp);
      StillFiled(c, file);
      NowShown(c, l, file);
    }

    lemma StillFiled(c: seq<File>, file: File)
      requires contents == [file] + Dropped(c, file) && file.name in files && files[file.name] == file
      requires forall n :: n in files ==> files[n].name == n && (files[n] in c || n == file.name)
      requires forall f :: f in c ==> f.name in files && files[f.name] == f
      ensures Filed() && forall n :: n in files ==> files[n] in contents
    {
      hide Dropped;
    }

    lemma NowShown(c: seq<File>, l: seq<Entry>, file: File)
      requires contents == [file] + Dropped(c, file) && list == [file.Value()] + Without(l, file.name)
      requires |c| == |l| && Distinct(l) && NoDup(c)
      requires forall i {:trigger l[i]} :: 0 <= i < |l| ==> l[i].name == c[i].name
      requires forall i {:trigger l[i]} :: 0 <= i < |l| && c[i] != file ==> l[i] == c[i].Value()
      requires file !in c ==> forall i :: 0 <= i < |c| ==> c[i].name != file.name
      ensures Shown()
    {
      hide Without, Distinct, NoDup;
      SameRemoval(c, l, file);
      if file in c {
        RemovalKeepsDistinct(c, IndexOf(c, file));
        Promoted(c, l, IndexOf(c, file));
      } else {
        assert forall i :: 0 <= i < |c| ==> c[i] in c;
        assert forall i {:trigger list[i]} :: 0 < i < |list| ==> list[i] == l[i - 1] && contents[i] == c[i - 1];
      }
    }

    lemma Promoted(c: seq<File>, l: seq<Entry>, k: nat)
      requires k < |c| == |l| && contents == [c[k]] + (c[..k] + c[k + 1..])
      requires list == [c[k].Value()] + (l[..k] + l[k + 1..])
      requires forall i {:trigger l[i]} :: 0 <= i < |l| && i != k ==> l[i] == c[i].Value()
      ensures Shown()
    {
      forall i | 0 < i < |list|
        ensures list[i] == contents[i].Value()
      {
        var o := if i <= k then i - 1 else i;
        assert contents[i] == c[o] && list[i] == l[o];
      }
    }

    method MoveToHead(file: File)
      requires Linked() && (file !in contents ==> file.prev == Unlinked && file.next == null)
      modifies this`latestFile, this`contents, contents`next, contents`prev, file`next, file`prev
      ensures Linked() && contents == [file] + Dropped(old(contents), file)
      ensures NoDup(old(contents))
    {
      if latestFile != file {
        ghost var i := if file in contents then IndexOf(contents, file) else 0;
        RemoveFromFileList(file, i);
        InsertAtHeadOfFileList(file);
      }
    }

    /** A path was found to exist or not: its file node is created if need be, and marked. */
    method Observe(name: Name, present: bool, timestamp: int)
      requires Valid()
      modifies this, contents
      ensures Valid() && Model() == Changed(old(Model()), name, present, timestamp)
    {
      hide NoDup, Wf, Changed, ViewDatabase.Linked;
      var file := GetOrCreateChildFile(name);
      file.present := present;
      MarkFileChanged(file, Stamp(mostRecentTick, timestamp));
    }

    // ----- Age-out

    /** Erases the file at position i from its directory, which frees the node and unlinks it. */
    method AgeOutFile(file: File, ghost i: nat) returns (otime: Stamp)
      requires Valid() && i < |contents| && contents[i] == file
      modifies this`latestFile, this`contents, this`list, this`files, contents`next, contents`prev
      ensures Valid() && otime == old(list)[i].otime
      ensures contents == old(contents)[..i] + old(contents)[i + 1..]
      ensures list == old(list)[..i] + old(list)[i + 1..]
    {
      hide NoDup, Distinct, Ordered, ViewDatabase.Linked;
      ghost var c, l := contents, list;
      otime := file.otime;
      LinkedAt(i);
      files := files - {file.name};
      RemoveFromFileList(file, i);
      list := list[..i] + list[i + 1..];
      RemovalShown(c, l, i);
      RemovalKeepsDistinct(c, i);
      assert forall f :: f in contents ==> f in c && f != file;
      SublistWf(old(Model()), i);
    }

    lemma LinkedAt(i: nat)
      requires Linked() && Shown() && i < |contents|
      ensures contents[i].prev != Unlinked && contents[i].otime == list[i].otime && NoDup(contents)
    {}

    lemma RemovalShown(c: seq<File>, l: seq<Entry>, i: nat)
      requires |c| == |l| && i < |l| && contents == c[..i] + c[i + 1..] && list == l[..i] + l[i + 1..]
      requires forall j {:trigger l[j]} :: 0 <= j < |l| ==> l[j] == c[j].Value()
      ensures Shown()
    {
      forall j | 0 <= j < |list|
        ensures list[j] == contents[j].Value()
      {
        var o := if j < i then j else j + 1;
        assert list[j] == l[o] && contents[j] == c[o];
      }
    }

    /** The walk: a stale file is erased and the walk resumes at the last file that was kept, if any. */
    method AgeOut(horizon: int) returns (walked: nat, aged: nat)
      requires Valid()
      modifies this`latestFile, this`contents, this`list, this`files, this`lastAgeOutTick, contents`next, contents`prev
      ensures Valid() && Model() == AgedOut(old(Model()), horizon)
    {
      hide NoDup, Wf, Walked, AgedOut, ViewDatabase.Linked, ViewDatabase.Filed;
      aged, walked := 0, 0;
      var file, prior: File? := latestFile, null;
      ghost var i := 0;
      HeadIsFirst();
      WalkStarts(Model(), horizon);
      while file != null
        invariant Valid() && i <= |contents| && Walked(old(Model()), Model(), i, horizon)
        invariant forall j {:trigger contents[j]} :: 0 <= j < |contents| ==> contents[j] in old(contents)
        invariant prior == if i > 0 then contents[i - 1] else null
        invariant file == NodeAt(i) || (i > 0 && file == contents[i - 1])
        decreases |contents|, |contents| - i, if file == NodeAt(i) then 0 else 1
      {
        walked := walked + 1;
        WalkStep(old(Model()), Model(), i, horizon);
        ghost var k := if file == NodeAt(i) then i else i - 1;
        assert list[k] == file.Value();
        if file.present || file.otime.timestamp > horizon {
          NextIs(k);
          prior, file, i := file, file.next, k + 1;
          continue;
        }
        assert forall j :: 0 <= j < |contents| ==> contents[j] in contents && contents[j] in old(contents);
        Erase(file, i);
        aged := aged + 1;
        if prior == null {
          return;
        }
        file := prior;
      }
      WalkEnds(old(Model()), Model(), horizon);
    }

    method Erase(file: File, ghost i: nat)
      requires Valid() && i < |contents| && contents[i] == file
      modifies this`latestFile, this`contents, this`list, this`files, this`lastAgeOutTick, contents`next, contents`prev
      ensures Valid() && contents == old(contents)[..i] + old(contents)[i + 1..]
      ensures Model() == Erased(old(Model()), i)
    {
      var agedOtime := AgeOutFile(file, i);
      lastAgeOutTick := Max(lastAgeOutTick, agedOtime.ticks);
    }

    lemma HeadIsFirst()
      requires Linked()
      ensures latestFile == NodeAt(0)
    {}

    lemma NextIs(i: nat)
      requires Linked() && i < |contents|
      ensures contents[i].next == NodeAt(i + 1)
    {}

    /** timeGenerator for a clock: the files it reports, in order. */
    method TimeGenerator(since: nat) returns (reported: seq<Entry>)
      requires Valid()
      ensures reported == ChangedSince(list, since)
    {
      hide NoDup, Wf, ChangedSince, ViewDatabase.Linked, ViewDatabase.Filed;
      reported := [];
      var f := latestFile;
      ghost var i := 0;
      HeadIsFirst();
      assert list[0..] == list;
      while f != null
        invariant i <= |contents| && f == NodeAt(i)
        invariant ChangedSince(list, since) == reported + ChangedSince(list[i..], since)
        decreases |contents| - i
      {
        assert list[i] == f.Value();
        ReportStep(list, i, since);
        if f.otime.ticks <= since {
          return;
        }
        reported := reported + [Entry(f.name, f.present, f.otime)];
        NextIs(i);
        f, i := f.next, i + 1;
      }
    }
  }

  lemma SublistWf(v: View, i: nat)
    requires Wf(v) && i < |v.list|
    ensures Wf(v.(list := v.list[..i] + v.list[i + 1..]))
  {
    var r := v.list[..i] + v.list[i + 1..];
    assert forall e :: e in r ==> e in v.list;
  }

  ghost function Dropped(s: seq<File>, f: File): (r: seq<File>)
    ensures forall x :: x in r ==> x in s
    ensures NoDup(s) ==> f !in r
    ensures forall x :: x in s ==> x == f || x in r
  {
    if f in s then var i := IndexOf(s, f); s[..i] + s[i + 1..] else s
  }

  ghost function IndexOf(s: seq<File>, f: File): (i: nat)
    requires f in s
    ensures i < |s| && s[i] == f
  {
    if s[0] == f then 0 else IndexOf(s[1..], f) + 1
  }

  /** Dropping a file from the nodes and dropping its name from the entries is the same removal. */
  lemma SameRemoval(c: seq<File>, l: seq<Entry>, f: File)
    requires |c| == |l| && Distinct(l) && forall i :: 0 <= i < |l| ==> l[i].name == c[i].name
    requires f !in c ==> forall i :: 0 <= i < |c| ==> c[i].name != f.name
    ensures Without(l, f.name) == if f in c then var i := IndexOf(c, f); l[..i] + l[i + 1..] else l
  {
    if f in c {
      FilterOne(l, NotNamed(f.name), IndexOf(c, f));
    } else {
      FilterAll(l, NotNamed(f.name));
    }
  }

  /** The view without the entry at position i, which the age-out tick now covers. */
  ghost function Erased(v: View, i: nat): View
    requires i < |v.list|
  {
    v.(list := v.list[..i] + v.list[i + 1..], lastAgeOut := Max(v.lastAgeOut, v.list[i].otime.ticks))
  }

  /** The walk of ageOut has kept the first i entries of v, out of the view it began with. */
  ghost predicate Walked(was: View, v: View, i: nat, horizon: int) {
    && i <= |v.list| && v.tick == was.tick
    && (forall j :: 0 <= j < i ==> !Stale(v.list[j], horizon))
    && (i == 0 ==> v == was)
    && (was.list != [] && Stale(was.list[0], horizon) ==> i == 0)
    && Kept(was.list, horizon) == v.list[..i] + Kept(v.list[i..], horizon)
    && LatestStale(was.list, horizon, was.lastAgeOut) == LatestStale(v.list[i..], horizon, v.lastAgeOut)
  }

  lemma WalkStarts(v: View, horizon: int)
    ensures Walked(v, v, 0, horizon)
  {
    assert v.list[0..] == v.list;
  }

  lemma KeptStep(l: seq<Entry>, i: nat, horizon: int, sofar: nat)
    requires i < |l|
    ensures Kept(l[i..], horizon)
            == (if Stale(l[i], horizon) then [] else [l[i]]) + Kept(l[i + 1..], horizon)
    ensures LatestStale(l[i..], horizon, sofar)
            == LatestStale(l[i + 1..], horizon, if Stale(l[i], horizon) then Max(sofar, l[i].otime.ticks) else sofar)
  {
    assert l[i..][1..] == l[i + 1..] && l[i..][0] == l[i];
  }

  lemma WalkKeeps(was: View, v: View, i: nat, horizon: int)
    requires Walked(was, v, i, horizon) && i < |v.list| && !Stale(v.list[i], horizon)
    ensures Walked(was, v, i + 1, horizon)
  {
    hide Kept, LatestStale, Stale;
    KeptStep(v.list, i, horizon, v.lastAgeOut);
    Regrouped(v.list, i, Kept(v.list[i + 1..], horizon));
  }

  lemma Regrouped(list: seq<Entry>, i: nat, rest: seq<Entry>)
    requires i < |list|
    ensures list[..i] + ([list[i]] + rest) == list[..i + 1] + rest
  {}

  lemma WalkErases(was: View, v: View, i: nat, horizon: int)
    requires Walked(was, v, i, horizon) && 0 < i < |v.list| && Stale(v.list[i], horizon)
    ensures Walked(was, Erased(v, i), i, horizon)
  {
    hide Kept, LatestStale, Stale;
    KeptStep(v.list, i, horizon, v.lastAgeOut);
    var tail := Kept(v.list[i + 1..], horizon);
    assert [] + tail == tail;
    SameAround(v.list, i);
  }

  lemma SameAround(list: seq<Entry>, i: nat)
    requires i < |list|
    ensures var rest := list[..i] + list[i + 1..];
            rest[..i] == list[..i] && rest[i..] == list[i + 1..] && forall j :: 0 <= j < i ==> rest[j] == list[j]
  {}

  /** What the walk does at the entry after the ones it kept. */
  lemma WalkStep(was: View, v: View, i: nat, horizon: int)
    requires Walked(was, v, i, horizon)
    ensures i > 0 ==> !Stale(v.list[i - 1], horizon)
    ensures i < |v.list| && !Stale(v.list[i], horizon) ==> Walked(was, v, i + 1, horizon)
    ensures i < |v.list| && Stale(v.list[i], horizon) ==>
              if i == 0 then Erased(v, 0) == AgedOut(was, horizon) else Walked(was, Erased(v, i), i, horizon)
  {
    hide Kept, LatestStale, Filter;
    if i < |v.list| {
      if !Stale(v.list[i], horizon) {
        WalkKeeps(was, v, i, horizon);
      } else if i > 0 {
        WalkErases(was, v, i, horizon);
      } else {
        assert v.list[..0] + v.list[1..] == v.list[1..];
      }
    }
  }

  lemma WalkEnds(was: View, v: View, horizon: int)
    requires Walked(was, v, |v.list|, horizon)
    ensures v == AgedOut(was, horizon)
  {
    assert v.list[|v.list|..] == [] && v.list[..|v.list|] == v.list;
    assert was.list == [] ==> v.list == [];
  }

  lemma ReportStep(list: seq<Entry>, i: nat, since: nat)
    requires i < |list|
    ensures ChangedSince(list[i..], since)
            == if list[i].otime.ticks <= since then [] else [list[i]] + ChangedSince(list[i + 1..], since)
  {
    assert list[i..][1..] == list[i + 1..];
  }
}
