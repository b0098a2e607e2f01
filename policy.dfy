/** The relay's two pieces of policy state as values: the ignore list
    (`ignored_users`, kept in `ignored.json`) and the per-user anti-spam
    counters (`anti_spam_check`). */
module Policy {
  import opened Builtins

  predicate NoDuplicates(s: seq<string>) {
    forall i, j :: 0 <= i < j < |s| ==> s[i] != s[j]
  }

  /** The list after `ignore <id>` or an auto-ignore: the id is appended only
      when it is not there already. */
  function Ignore(list: seq<string>, id: string): (r: seq<string>)
    ensures id in r
    ensures forall u :: u in r <==> u in list || u == id
    ensures id in list ==> r == list
    ensures id !in list ==> |r| == |list| + 1 && r[..|list|] == list && r[|list|] == id
    ensures NoDuplicates(list) ==> NoDuplicates(r)
  {
    if id in list then list else list + [id]
  }

  /** The list after `unignore <id>`: the first occurrence of the id goes,
      and the list is left alone when the id is not in it. */
  function Unignore(list: seq<string>, id: string): (r: seq<string>)
    ensures id !in list ==> r == list
    ensures multiset(r) == multiset(list) - multiset{id}
    ensures NoDuplicates(list) ==> NoDuplicates(r) && id !in r
    ensures NoDuplicates(list) ==> forall u :: u in r <==> u in list && u != id
  {
    if id !in list then list
    else
      var r := RemoveFirst(list, id);
      RemoveKeepsNoDuplicates(list, id);
      r
  }

  lemma RemoveKeepsNoDuplicates(list: seq<string>, id: string)
    requires id in list
    ensures var r := RemoveFirst(list, id);
      NoDuplicates(list) ==> NoDuplicates(r) && id !in r && forall u :: u in r <==> u in list && u != id
  {
    var r := RemoveFirst(list, id);
    var i :| 0 <= i < |list| && list[i] == id && r == list[..i] + list[i + 1..];
    if NoDuplicates(list) {
      DropKeepsNoDuplicates(list, i);
      DropMembers(list, i);
    }
  }

  /** Dropping one position of a duplicate-free list keeps it duplicate-free. */
  lemma DropKeepsNoDuplicates(list: seq<string>, i: nat)
    requires i < |list| && NoDuplicates(list)
    ensures NoDuplicates(list[..i] + list[i + 1..])
  {
    var r := list[..i] + list[i + 1..];
    forall a, b | 0 <= a < b < |r| ensures r[a] != r[b] {
      var a' := if a < i then a else a + 1;
      var b' := if b < i then b else b + 1;
      assert r[a] == list[a'] && r[b] == list[b'];
    }
  }

  /** Dropping one position of a duplicate-free list leaves exactly the
      other elements. */
  lemma DropMembers(list: seq<string>, i: nat)
    requires i < |list| && NoDuplicates(list)
    ensures forall u :: u in list[..i] + list[i + 1..] <==> u in list && u != list[i]
  {
    var r := list[..i] + list[i + 1..];
    forall u ensures u in r <==> u in list && u != list[i] {
      if u in list && u != list[i] {
        var k :| 0 <= k < |list| && list[k] == u;
        assert u == r[if k < i then k else k - 1];
      }
      if u in r {
        var k :| 0 <= k < |r| && r[k] == u;
        assert u == list[if k < i then k else k + 1];
      }
    }
  }

  /** `ignore <id>` followed by `unignore <id>` gives back the list exactly
      when the id was not ignored before. */
  lemma {:induction false} UnignoreUndoesIgnore(list: seq<string>, id: string)
    requires id !in list
    ensures Unignore(Ignore(list, id), id) == list
  {
    var s := list + [id];
    var i := Index(s, id);
    assert s[..|list|] == list;
    assert i == |list|;
    assert RemoveFirst(s, id) == s[..i] + s[i + 1..];
  }

  /** `unignore <id>` followed by `ignore <id>` gives back the same ids (the
      id moves to the end of the list). */
  lemma {:induction false} IgnoreUndoesUnignore(list: seq<string>, id: string)
    requires NoDuplicates(list) && id in list
    ensures multiset(Ignore(Unignore(list, id), id)) == multiset(list)
  {
    var r := Unignore(list, id);
    assert id !in r;
    assert multiset(Ignore(r, id)) == multiset(r) + multiset{id};
  }

  /** Both commands are idempotent on a duplicate-free list. */
  lemma {:induction false} CommandsIdempotent(list: seq<string>, id: string)
    requires NoDuplicates(list)
    ensures Ignore(Ignore(list, id), id) == Ignore(list, id)
    ensures Unignore(Unignore(list, id), id) == Unignore(list, id)
  {
  }

  /** A user's counter; a user with no entry has sent nothing yet. */
  function Count(counters: map<string, int>, user: string): int {
    if user in counters then counters[user] else 0
  }

  /** A DM from a user who is not ignored: the entry is created at 0 when
      missing and then raised by one. */
  function Bump(counters: map<string, int>, user: string): (r: map<string, int>)
    ensures r.Keys == counters.Keys + {user}
    ensures Count(r, user) == Count(counters, user) + 1
    ensures forall u :: u != user ==> Count(r, u) == Count(counters, u)
  {
    counters[user := Count(counters, user) + 1]
  }

  /** The delayed decrement that ends the relay path. */
  function Decay(counters: map<string, int>, user: string): (r: map<string, int>)
    requires user in counters
    ensures r.Keys == counters.Keys
    ensures Count(r, user) == Count(counters, user) - 1
    ensures forall u :: u != user ==> Count(r, u) == Count(counters, u)
  {
    counters[user := counters[user] - 1]
  }

  /** A relayed DM and its decay leave every counter where it was. */
  lemma {:induction false} DecayUndoesBump(counters: map<string, int>, user: string)
    ensures forall u :: Count(Decay(Bump(counters, user), user), u) == Count(counters, u)
    ensures user in counters ==> Decay(Bump(counters, user), user) == counters
  {
  }
}
