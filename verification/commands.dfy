/**
 * The `$commands` array of the dispatcher: an ordered PHP array from command
 * name to the record `{class, file, group, description}`. A PHP array is a
 * map whose keys also carry an order; the model keeps the two apart as
 * `entries` and `keys`.
 */
module Commands {
  import opened Php

  /** The record stored for one command: `['class' => …, 'file' => …, 'group' => …, 'description' => …]`. */
  datatype Entry = Entry(className: string, file: string, group: string, description: string)

  /**
   * PHP's `<=` on two such records: equal-sized arrays with the same keys are
   * compared value by value in the order of their keys, so `class` first, then
   * `file`, `group` and `description`.
   */
  predicate EntryLe(a: Entry, b: Entry)
  {
    if a.className != b.className then StrLe(a.className, b.className)
    else if a.file != b.file then StrLe(a.file, b.file)
    else if a.group != b.group then StrLe(a.group, b.group)
    else StrLe(a.description, b.description)
  }

  lemma EntryLeTotal(a: Entry, b: Entry)
    ensures EntryLe(a, b) || EntryLe(b, a)
  {
    StrLeTotal(a.className, b.className);
    StrLeTotal(a.file, b.file);
    StrLeTotal(a.group, b.group);
    StrLeTotal(a.description, b.description);
  }

  lemma EntryLeTransitive(a: Entry, b: Entry, c: Entry)
    requires EntryLe(a, b) && EntryLe(b, c)
    ensures EntryLe(a, c)
  {
    if a.className != b.className || b.className != c.className {
      if a.className == c.className {
        StrLeAntisymmetric(a.className, b.className);
      } else if a.className == b.className {
      } else if b.className == c.className {
      } else {
        StrLeTransitive(a.className, b.className, c.className);
      }
    } else if a.file != b.file || b.file != c.file {
      if a.file == c.file {
        StrLeAntisymmetric(a.file, b.file);
      } else if a.file != b.file && b.file != c.file {
        StrLeTransitive(a.file, b.file, c.file);
      }
    } else if a.group != b.group || b.group != c.group {
      if a.group == c.group {
        StrLeAntisymmetric(a.group, b.group);
      } else if a.group != b.group && b.group != c.group {
        StrLeTransitive(a.group, b.group, c.group);
      }
    } else {
      StrLeTransitive(a.description, b.description, c.description);
    }
  }

  /** An ordered PHP array from command name to its record. */
  datatype Table = Table(entries: map<string, Entry>, keys: seq<string>)
  {
    /** Every key of the map occurs exactly once in the key order, and nothing else does. */
    ghost predicate Valid()
    {
      multiset(keys) == multiset(entries.Keys)
    }

    /**
     * `$array[$name] = $entry`: an existing key keeps its place and takes the
     * new record, a new key is appended at the end.
     */
    function Set(name: string, entry: Entry): (r: Table)
      requires Valid()
      ensures r.Valid()
      ensures r.entries == entries[name := entry]
      ensures name in entries ==> r.keys == keys
      ensures name !in entries ==> r.keys == keys + [name]
    {
      if name in entries then
        Table(entries[name := entry], keys)
      else
        var r := Table(entries[name := entry], keys + [name]);
        assert multiset(r.entries.Keys) == multiset(entries.Keys) + multiset{name} by {
          assert r.entries.Keys == entries.Keys + {name};
        }
        r
    }
  }

  /** The empty array `[]`. */
  const EmptyTable := Table(map[], [])

  lemma {:induction false} ValidKeys(t: Table, k: string)
    requires t.Valid()
    ensures k in t.keys <==> k in t.entries
  {
    assert k in t.keys <==> k in multiset(t.keys);
    assert k in t.entries <==> k in multiset(t.entries.Keys);
  }

  /** Every key of `keys` names an entry of `m`. */
  ghost predicate KeysIn(m: map<string, Entry>, keys: seq<string>)
  {
    forall k :: k in keys ==> k in m
  }

  /** The records along `keys` never decrease under PHP's comparison. */
  ghost predicate Sorted(m: map<string, Entry>, keys: seq<string>)
  {
    KeysIn(m, keys) &&
    forall i, j :: 0 <= i < j < |keys| ==> EntryLe(m[keys[i]], m[keys[j]])
  }

  /** Inserts `x` before the first key whose record is not smaller than its own. */
  function Insert(m: map<string, Entry>, x: string, s: seq<string>): (r: seq<string>)
    requires x in m && KeysIn(m, s)
    ensures multiset(r) == multiset(s) + multiset{x}
    ensures KeysIn(m, r)
  {
    if s == [] then [x]
    else if EntryLe(m[x], m[s[0]]) then [x] + s
    else
      var tail := Insert(m, x, s[1..]);
      assert s == [s[0]] + s[1..];
      assert forall k :: k in [s[0]] + tail ==> k == s[0] || k in multiset(tail);
      [s[0]] + tail
  }

  /** Stable insertion sort of `keys` by their records in `m`. */
  function SortKeys(m: map<string, Entry>, keys: seq<string>): (r: seq<string>)
    requires KeysIn(m, keys)
    ensures multiset(r) == multiset(keys)
    ensures KeysIn(m, r)
  {
    if keys == [] then []
    else
      assert keys == [keys[0]] + keys[1..];
      Insert(m, keys[0], SortKeys(m, keys[1..]))
  }

  lemma {:induction false} InsertSorted(m: map<string, Entry>, x: string, s: seq<string>)
    requires x in m && Sorted(m, s)
    ensures Sorted(m, Insert(m, x, s))
  {
    var r := Insert(m, x, s);
    if s == [] {
    } else if EntryLe(m[x], m[s[0]]) {
      forall i, j | 0 <= i < j < |r| ensures EntryLe(m[r[i]], m[r[j]]) {
        if i == 0 && j > 1 {
          EntryLeTransitive(m[x], m[s[0]], m[s[j - 1]]);
        }
      }
    } else {
      EntryLeTotal(m[x], m[s[0]]);
      var tail := Insert(m, x, s[1..]);
      InsertSorted(m, x, s[1..]);
      assert r == [s[0]] + tail;
      forall j | 0 < j < |r| ensures EntryLe(m[s[0]], m[r[j]]) {
        assert r[j] == tail[j - 1];
        assert r[j] in multiset(tail);
        if r[j] != x {
          assert r[j] in multiset(s[1..]);
          var k :| 0 <= k < |s[1..]| && s[1..][k] == r[j];
          assert s[k + 1] == r[j];
        }
      }
    }
  }

  lemma {:induction false} SortKeysSorted(m: map<string, Entry>, keys: seq<string>)
    requires KeysIn(m, keys)
    ensures Sorted(m, SortKeys(m, keys))
  {
    if keys != [] {
      SortKeysSorted(m, keys[1..]);
      InsertSorted(m, keys[0], SortKeys(m, keys[1..]));
    }
  }

  /** Sorting a key order that is already sorted leaves it as it is. */
  lemma {:induction false} SortKeysOfSorted(m: map<string, Entry>, keys: seq<string>)
    requires Sorted(m, keys)
    ensures SortKeys(m, keys) == keys
  {
    if keys != [] {
      assert Sorted(m, keys[1..]);
      SortKeysOfSorted(m, keys[1..]);
      assert keys == [keys[0]] + keys[1..];
    }
  }

  /**
   * `asort($array)`: the key order is sorted by the records and every key
   * keeps its own record.
   */
  function ASort(t: Table): (r: Table)
    requires t.Valid()
    ensures r.Valid()
    ensures r.entries == t.entries
    ensures multiset(r.keys) == multiset(t.keys)
    ensures Sorted(r.entries, r.keys)
  {
    forall k | k in t.keys ensures k in t.entries {
      ValidKeys(t, k);
    }
    var keys := SortKeys(t.entries, t.keys);
    SortKeysSorted(t.entries, t.keys);
    Table(t.entries, keys)
  }

  /** `asort` on an array whose records are already in order changes nothing. */
  lemma ASortOfSorted(t: Table)
    requires t.Valid() && Sorted(t.entries, t.keys)
    ensures ASort(t) == t
  {
    SortKeysOfSorted(t.entries, t.keys);
  }
}
