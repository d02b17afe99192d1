/** Moving an error entry back to its queue: the atomic script, and any number of clients staging their values
    for it while calls fail, keys expire and others use the lists. */
module Requeue {
  import opened Common

  datatype Value = List(items: seq<Bytes>) | Str(bytes: Bytes)

  /** The key space; volatile keys have a time to live and may expire at any moment. */
  datatype Db = Db(keys: map<string, Value>, volatile: set<string>)

  /** What EVAL reports: a result, or a command error that aborted the script. */
  datatype Reply = Returned(result: int) | Aborted

  // ---------------------------------------------------------------- commands

  /** A missing key is an empty list; a key of the other type is an error. */
  predicate ListLike(db: Db, key: string) { key in db.keys ==> db.keys[key].List? }

  function Items(db: Db, key: string): seq<Bytes> {
    if key in db.keys && db.keys[key].List? then db.keys[key].items else []
  }

  predicate StrLike(db: Db, key: string) { key in db.keys ==> db.keys[key].Str? }

  function Read(db: Db, key: string): Option<Bytes> {
    if key in db.keys && db.keys[key].Str? then Some(db.keys[key].bytes) else None
  }

  /** An empty list is no key. */
  function WithList(db: Db, key: string, items: seq<Bytes>): Db {
    if items == [] then Db(db.keys - {key}, db.volatile - {key}) else db.(keys := db.keys[key := List(items)])
  }

  function RemoveFirst(items: seq<Bytes>, x: Bytes): (r: seq<Bytes>)
    ensures x !in items ==> r == items
    ensures x in items ==> |r| == |items| - 1 && multiset(r) == multiset(items) - multiset{x}
  {
    if items == [] then []
    else
      assert items == [items[0]] + items[1..];
      if items[0] == x then items[1..] else [items[0]] + RemoveFirst(items[1..], x)
  }

  function Delete(db: Db, keys: set<string>): Db { Db(db.keys - keys, db.volatile - keys) }

  // ---------------------------------------------------------------- what the script does

  /** The staged values can be read, and so can the source if they are there. */
  predicate Typed(db: Db, source: string, entryKey: string, taskKey: string) {
    && StrLike(db, entryKey) && StrLike(db, taskKey)
    && (Read(db, entryKey).Some? && Read(db, taskKey).Some? ==> ListLike(db, source))
  }

  /** The entry is there to be removed. */
  predicate Found(db: Db, source: string, entryKey: string, taskKey: string) {
    && Read(db, entryKey).Some? && Read(db, taskKey).Some?
    && Read(db, entryKey).value in Items(db, source)
  }

  function Push(db: Db, key: string, x: Bytes): Db { WithList(db, key, [x] + Items(db, key)) }

  function Taken(db: Db, list: string, x: Bytes): Db { WithList(db, list, RemoveFirst(Items(db, list), x)) }

  function Moved(db: Db, source: string, target: string, entryKey: string, taskKey: string): (Reply, Db) {
    if !Typed(db, source, entryKey, taskKey) then (Aborted, db)
    else if !Found(db, source, entryKey, taskKey) then (Returned(0), Delete(db, {entryKey, taskKey}))
    else
      var (raw, task) := (Read(db, entryKey).value, Read(db, taskKey).value);
      var removed := Taken(db, source, raw);
      if ListLike(removed, target) then (Returned(1), Delete(Push(removed, target, task), {entryKey, taskKey}))
      else (Returned(-1), Delete(Push(removed, source, raw), {entryKey, taskKey}))
  }

  function Copies(db: Db, key: string, x: Bytes): nat { multiset(Items(db, key))[x] }

  lemma WithListItems(db: Db, list: string, items: seq<Bytes>, key: string)
    requires ListLike(db, list)
    ensures Items(WithList(db, list, items), key) == if key == list then items else Items(db, key)
    ensures Read(WithList(db, list, items), key) == Read(db, key)
    ensures ListLike(WithList(db, list, items), key) == ListLike(db, key)
  {
  }

  lemma PushCopies(db: Db, list: string, pushed: Bytes, key: string, x: Bytes)
    requires ListLike(db, list)
    ensures Copies(Push(db, list, pushed), key, x) == Copies(db, key, x) + One(key == list && x == pushed)
    ensures Read(Push(db, list, pushed), key) == Read(db, key)
    ensures ListLike(Push(db, list, pushed), key) == ListLike(db, key)
  {
    assert multiset([pushed] + Items(db, list)) == multiset{pushed} + multiset(Items(db, list));
  }

  lemma TakeCopies(db: Db, list: string, taken: Bytes, key: string, x: Bytes)
    requires ListLike(db, list) && taken in Items(db, list)
    ensures Copies(Taken(db, list, taken), key, x) + One(key == list && x == taken) == Copies(db, key, x)
    ensures Read(Taken(db, list, taken), key) == Read(db, key)
    ensures ListLike(Taken(db, list, taken), key) == ListLike(db, key)
  {
    var less := RemoveFirst(Items(db, list), taken);
    assert taken in multiset(Items(db, list));
    assert multiset(less)[x] + One(x == taken) == multiset(Items(db, list))[x];
    WithListItems(db, list, less, key);
  }

  lemma DeleteCopies(db: Db, keys: set<string>, key: string, x: Bytes)
    requires key !in keys
    ensures Copies(Delete(db, keys), key, x) == Copies(db, key, x) && Read(Delete(db, keys), key) == Read(db, key)
  {
  }

  /** All or nothing: 1 takes one copy of the entry off the source and puts the task on the target; 0 and a
      command error leave every list alone; -1 leaves every list with the same elements. */
  lemma ScriptIsAtomic(db: Db, source: string, target: string, entryKey: string, taskKey: string, key: string, x: Bytes)
    requires {source, target} !! {entryKey, taskKey} && key !in {entryKey, taskKey}
    ensures var (reply, after) := Moved(db, source, target, entryKey, taskKey);
      var ready := Typed(db, source, entryKey, taskKey) && Found(db, source, entryKey, taskKey);
      && (reply == Returned(1) <==> ready && ListLike(db, target))
      && (reply == Returned(-1) <==> ready && !ListLike(db, target))
      && (reply == Returned(0) <==> Typed(db, source, entryKey, taskKey) && !Found(db, source, entryKey, taskKey))
      && (reply.Aborted? ==> after == db)
      && (reply.Returned? ==> entryKey !in after.keys && taskKey !in after.keys)
      && (if reply == Returned(1)
          then Copies(after, key, x) + One(key == source && Read(db, entryKey) == Some(x))
               == Copies(db, key, x) + One(key == target && Read(db, taskKey) == Some(x))
          else Copies(after, key, x) == Copies(db, key, x))
      && Read(after, key) == Read(db, key)
  {
    if Typed(db, source, entryKey, taskKey) && Found(db, source, entryKey, taskKey) {
      var (raw, task) := (Read(db, entryKey).value, Read(db, taskKey).value);
      var removed := Taken(db, source, raw);
      TakeCopies(db, source, raw, key, x);
      TakeCopies(db, source, raw, source, x);
      TakeCopies(db, source, raw, target, x);
      var pushed := if ListLike(db, target) then Push(removed, target, task) else Push(removed, source, raw);
      if ListLike(db, target) {
        PushCopies(removed, target, task, key, x);
      } else {
        PushCopies(removed, source, raw, key, x);
      }
      DeleteCopies(pushed, {entryKey, taskKey}, key, x);
    } else {
      DeleteCopies(db, {entryKey, taskKey}, key, x);
    }
  }

  // ---------------------------------------------------------------- the script, command by command

  lemma {:induction false} RemoveAt(items: seq<Bytes>, i: nat, x: Bytes)
    requires i < |items| && items[i] == x && x !in items[..i]
    ensures RemoveFirst(items, x) == items[..i] + items[i+1..]
  {
    if i > 0 {
      assert x != items[..i][0];
      assert items[1..][..i-1] == items[..i][1..];
      RemoveAt(items[1..], i - 1, x);
    }
  }

  /** One pass from the head, stopping at the first occurrence. */
  method Without(items: seq<Bytes>, x: Bytes) returns (rest: seq<Bytes>)
    ensures rest == RemoveFirst(items, x)
  {
    var i := 0;
    while i < |items| && items[i] != x
      invariant 0 <= i <= |items|
      invariant x !in items[..i]
    {
      i := i + 1;
    }
    if i == |items| {
      assert items[..i] == items;
      return items;
    }
    RemoveAt(items, i, x);
    rest := items[..i] + items[i+1..];
  }

  class Valkey {
    var keys: map<string, Value>
    var volatile: set<string>

    ghost function Contents(): Db reads this { Db(keys, volatile) }

    constructor ()
      ensures Contents() == Db(map[], {})
    {
      keys, volatile := map[], {};
    }

    method Get(key: string) returns (ok: bool, value: Option<Bytes>)
      ensures ok == StrLike(Contents(), key) && value == Read(Contents(), key)
    {
      if key !in keys {
        return true, None;
      }
      match keys[key] {
        case Str(bytes) => return true, Some(bytes);
        case List(_) => return false, None;
      }
    }

    /** LREM key 1 value: remove the first occurrence, counting from the head. */
    method Lrem(key: string, x: Bytes) returns (ok: bool, removed: int)
      modifies this
      ensures ok == ListLike(old(Contents()), key)
      ensures removed == One(ok && x in Items(old(Contents()), key))
      ensures Contents() == if removed == 1 then Taken(old(Contents()), key, x)
                            else old(Contents())
    {
      if key !in keys {
        return true, 0;
      }
      match keys[key] {
        case Str(_) =>
          return false, 0;
        case List(items) =>
          var rest := Without(items, x);
          if |rest| == |items| {
            return true, 0;
          }
          if rest == [] {
            keys, volatile := keys - {key}, volatile - {key};
          } else {
            keys := keys[key := List(rest)];
          }
          return true, 1;
      }
    }

    method Lpush(key: string, x: Bytes) returns (ok: bool)
      modifies this
      ensures ok == ListLike(old(Contents()), key)
      ensures Contents() == if ok then WithList(old(Contents()), key, [x] + Items(old(Contents()), key)) else old(Contents())
    {
      if key !in keys {
        keys := keys[key := List([x])];
        assert [x] + [] == [x];
        return true;
      }
      if keys[key].Str? {
        return false;
      }
      keys := keys[key := List([x] + keys[key].items)];
      return true;
    }

    method Del(a: string, b: string)
      modifies this
      ensures Contents() == Delete(old(Contents()), {a, b})
    {
      keys, volatile := keys - {a, b}, volatile - {a, b};
    }

    /** The script: only the call that removes the entry pushes the task; a failed push puts the entry back. */
    method AtomicRequeue(source: string, target: string, entryKey: string, taskKey: string) returns (reply: Reply)
      requires {source, target} !! {entryKey, taskKey}
      modifies this
      ensures (reply, Contents()) == Moved(old(Contents()), source, target, entryKey, taskKey)
    {
      var ok, raw := Get(entryKey);
      if !ok {
        return Aborted;
      }
      var task;
      ok, task := Get(taskKey);
      if !ok {
        return Aborted;
      }
      var result := 0;
      if raw.Some? && task.Some? {
        var removed;
        ok, removed := Lrem(source, raw.value);
        if !ok {
          return Aborted;
        }
        if removed == 1 {
          var pushed := Lpush(target, task.value);
          if pushed {
            result := 1;
          } else {
            var back := Lpush(source, raw.value);
            result := -1;
          }
        }
      }
      Del(entryKey, taskKey);
      reply := Returned(result);
    }
  }
}
