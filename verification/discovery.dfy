/**
 * The discovery pass of `createCommandList`: each file the locator lists is
 * resolved to a class, the class is instantiated to read its metadata, and
 * commands that belong to a group are stored under their name.
 */
module Discovery {
  import opened Wrappers
  import opened Php
  import opened Commands

  /**
   * What the locator and the instantiated class report for one listed file:
   * the class name `findQualifiedNameFromPath` resolves it to (absent when it
   * cannot), whether `class_exists` holds for that name, and the command's
   * `name`, `group` and `description` properties.
   */
  datatype Candidate = Candidate(
    file: string,
    className: Option<string>,
    classExists: bool,
    name: string,
    group: Option<string>,
    description: string)

  /** The class name resolves to something non-empty and that class can be loaded. */
  predicate Loadable(c: Candidate)
  {
    !Empty(c.className) && c.classExists
  }

  /** A loadable class whose `group` is not null is stored as a command. */
  predicate Eligible(c: Candidate)
  {
    Loadable(c) && c.group.Some?
  }

  /** The record stored for an eligible candidate. */
  function EntryOf(c: Candidate): Entry
    requires Eligible(c)
  {
    Entry(c.className.value, c.file, c.group.value, c.description)
  }

  /** One iteration of the scan loop. */
  function Step(t: Table, c: Candidate): (r: Table)
    requires t.Valid()
    ensures Eligible(c) ==> r.Valid() && r.entries == t.entries[c.name := EntryOf(c)]
    ensures !Eligible(c) ==> r == t
  {
    if Eligible(c) then t.Set(c.name, EntryOf(c)) else t
  }

  /** The scan loop over `files`, in order, starting from `t`. */
  function Register(t: Table, files: seq<Candidate>): (r: Table)
    requires t.Valid()
    ensures r.Valid()
    ensures t.entries.Keys <= r.entries.Keys
  {
    if files == [] then t
    else Step(Register(t, files[..|files| - 1]), files[|files| - 1])
  }

  /**
   * The whole of `createCommandList`: nothing at all when the locator lists no
   * file, otherwise the scan loop followed by `asort`.
   */
  function Discover(t: Table, files: seq<Candidate>): (r: Table)
    requires t.Valid()
    ensures r.Valid()
    ensures files == [] ==> r == t
    ensures files != [] ==> Sorted(r.entries, r.keys)
  {
    if files == [] then t else ASort(Register(t, files))
  }

  /** The eligible candidates of `files`, in order. */
  function Eligibles(files: seq<Candidate>): (r: seq<Candidate>)
  {
    if files == [] then []
    else
      var last := files[|files| - 1];
      Eligibles(files[..|files| - 1]) + (if Eligible(last) then [last] else [])
  }

  /** A name is a key after the scan exactly when it was before or an eligible candidate carries it. */
  lemma {:induction false} RegisterKeys(t: Table, files: seq<Candidate>, k: string)
    requires t.Valid()
    ensures k in Register(t, files).entries <==>
      k in t.entries || exists i :: 0 <= i < |files| && Eligible(files[i]) && files[i].name == k
  {
    if files != [] {
      var init := files[..|files| - 1];
      RegisterKeys(t, init, k);
      if exists i :: 0 <= i < |init| && Eligible(init[i]) && init[i].name == k {
        var i :| 0 <= i < |init| && Eligible(init[i]) && init[i].name == k;
        assert files[i] == init[i];
      }
      if exists i :: 0 <= i < |files| && Eligible(files[i]) && files[i].name == k {
        var i :| 0 <= i < |files| && Eligible(files[i]) && files[i].name == k;
        if i < |init| {
          assert init[i] == files[i];
        }
      }
    }
  }

  /** A name no eligible candidate carries keeps whatever record it had. */
  lemma {:induction false} RegisterUntouched(t: Table, files: seq<Candidate>, k: string)
    requires t.Valid() && k in t.entries
    requires forall i :: 0 <= i < |files| && Eligible(files[i]) ==> files[i].name != k
    ensures Register(t, files).entries[k] == t.entries[k]
  {
    if files != [] {
      var init := files[..|files| - 1];
      forall i | 0 <= i < |init| && Eligible(init[i]) ensures init[i].name != k {
        assert init[i] == files[i];
      }
      RegisterUntouched(t, init, k);
    }
  }

  /**
   * The last eligible candidate with a given name decides its record:
   * a later candidate with the same name overwrites an earlier one.
   */
  lemma {:induction false} RegisterLastWins(t: Table, files: seq<Candidate>, i: nat)
    requires t.Valid()
    requires i < |files| && Eligible(files[i])
    requires forall j :: i < j < |files| && Eligible(files[j]) ==> files[j].name != files[i].name
    ensures files[i].name in Register(t, files).entries
    ensures Register(t, files).entries[files[i].name] == EntryOf(files[i])
  {
    var init := files[..|files| - 1];
    if i < |files| - 1 {
      forall j | i < j < |init| && Eligible(init[j]) ensures init[j].name != init[i].name {
        assert init[j] == files[j];
      }
      RegisterLastWins(t, init, i);
      assert init[i] == files[i];
    }
  }

  /** Candidates that cannot be loaded or have no group make no difference to the scan. */
  lemma {:induction false} RegisterIgnoresIneligible(t: Table, files: seq<Candidate>)
    requires t.Valid()
    ensures Register(t, Eligibles(files)) == Register(t, files)
  {
    if files != [] {
      var init := files[..|files| - 1];
      var last := files[|files| - 1];
      RegisterIgnoresIneligible(t, init);
      if Eligible(last) {
        var e := Eligibles(init) + [last];
        assert Eligibles(files) == e;
        assert e[..|e| - 1] == Eligibles(init);
      } else {
        assert Eligibles(files) == Eligibles(init) + [];
        assert Eligibles(init) + [] == Eligibles(init);
      }
    }
  }

  lemma UnionUpdate(a: map<string, Entry>, b: map<string, Entry>, k: string, v: Entry)
    ensures (a + b)[k := v] == a + b[k := v]
  {
  }

  lemma UnionAbsorbs(a: map<string, Entry>, b: map<string, Entry>)
    ensures (a + b) + b == a + b
  {
  }

  /** The records after a scan are those before, overridden by the records the scan alone produces. */
  lemma {:induction false} RegisterOverrides(t: Table, files: seq<Candidate>)
    requires t.Valid()
    ensures Register(t, files).entries == t.entries + Register(EmptyTable, files).entries
  {
    if files != [] {
      var init := files[..|files| - 1];
      var last := files[|files| - 1];
      RegisterOverrides(t, init);
      var before, alone := Register(t, init), Register(EmptyTable, init);
      assert Register(t, files) == Step(before, last);
      assert Register(EmptyTable, files) == Step(alone, last);
      if Eligible(last) {
        UnionUpdate(t.entries, alone.entries, last.name, EntryOf(last));
      }
    }
  }

  /** A scan whose eligible names are all keys already appends no key and moves none. */
  lemma {:induction false} RegisterKnownNames(t: Table, files: seq<Candidate>)
    requires t.Valid()
    requires forall i :: 0 <= i < |files| && Eligible(files[i]) ==> files[i].name in t.entries
    ensures Register(t, files).keys == t.keys
  {
    if files != [] {
      var init := files[..|files| - 1];
      forall i | 0 <= i < |init| && Eligible(init[i]) ensures init[i].name in t.entries {
        assert init[i] == files[i];
      }
      RegisterKnownNames(t, init);
    }
  }

  /** Scanning again an array that already holds a scan's records changes nothing. */
  lemma RegisterAgain(s: Table, t: Table, files: seq<Candidate>)
    requires s.Valid() && t.Valid()
    requires s.entries == Register(t, files).entries
    ensures Register(s, files) == s
  {
    var alone := Register(EmptyTable, files).entries;
    RegisterOverrides(t, files);
    RegisterOverrides(s, files);
    UnionAbsorbs(t.entries, alone);
    forall i | 0 <= i < |files| && Eligible(files[i]) ensures files[i].name in s.entries {
      RegisterKeys(t, files, files[i].name);
    }
    RegisterKnownNames(s, files);
  }

  /**
   * Discovery is idempotent: running `createCommandList` a second time over
   * the same listing leaves the array exactly as the first run left it, records
   * and key order alike.
   */
  lemma DiscoverIdempotent(t: Table, files: seq<Candidate>)
    requires t.Valid()
    ensures Discover(Discover(t, files), files) == Discover(t, files)
  {
    if files != [] {
      var s := ASort(Register(t, files));
      RegisterAgain(s, t, files);
      ASortOfSorted(s);
    }
  }

  /**
   * A name that was not a key and that only candidates without a group (or
   * without a loadable class) carry is still not a key after discovery.
   */
  lemma GrouplessNeverStored(t: Table, files: seq<Candidate>, k: string)
    requires t.Valid() && k !in t.entries
    requires forall i :: 0 <= i < |files| && files[i].name == k ==> !Eligible(files[i])
    ensures k !in Discover(t, files).entries
  {
    RegisterKeys(t, files, k);
  }
}
