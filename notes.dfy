/**
 The note list of the todo screen as a value: the record a note is, the rule
 that picks the id of a new note, the list a successful add produces, and the
 list JavaScript's `splice(start, 1)` leaves behind when a note is deleted.
 */
module NoteList {

  /** One todo entry; `note` is its text (the field name the stored record uses). */
  datatype Note = Note(note: string, id: int)

  /** Ids grow strictly from each note to the next one along the list. */
  predicate Increasing(s: seq<Note>) {
    forall i :: 0 <= i < |s| - 1 ==> s[i].id < s[i + 1].id
  }

  /** Every earlier note has a smaller id than every later one. */
  predicate Ordered(s: seq<Note>) {
    forall i, j :: 0 <= i < j < |s| ==> s[i].id < s[j].id
  }

  /** No two notes share an id (the list's rows are keyed by id). */
  predicate UniqueIds(s: seq<Note>) {
    forall i, j :: 0 <= i < j < |s| ==> s[i].id != s[j].id
  }

  lemma {:induction false} IncreasingIsOrdered(s: seq<Note>)
    ensures Increasing(s) <==> Ordered(s)
  {
    if Increasing(s) && |s| > 1 {
      var t := s[..|s| - 1];
      assert Increasing(t) by {
        forall i | 0 <= i < |t| - 1 ensures t[i].id < t[i + 1].id {
          assert t[i] == s[i] && t[i + 1] == s[i + 1];
        }
      }
      IncreasingIsOrdered(t);
      forall i, j | 0 <= i < j < |s| ensures s[i].id < s[j].id {
        if j < |s| - 1 {
          assert s[i] == t[i] && s[j] == t[j];
        } else if i < |s| - 2 {
          assert s[i] == t[i] && s[|s| - 2] == t[|s| - 2];
          assert t[i].id < t[|s| - 2].id;
        }
      }
    }
  }

  lemma IncreasingHasUniqueIds(s: seq<Note>)
    requires Increasing(s)
    ensures UniqueIds(s)
  {
    IncreasingIsOrdered(s);
  }

  /** The largest id in a non-empty list, found without assuming any order. */
  function MaxId(s: seq<Note>): (m: int)
    requires s != []
    ensures forall n :: n in s ==> n.id <= m
    ensures exists k :: 0 <= k < |s| && s[k].id == m
  {
    if |s| == 1 then s[0].id
    else
      var rest := MaxId(s[1..]);
      assert forall n :: n in s ==> n == s[0] || n in s[1..];
      var k :| 0 <= k < |s[1..]| && s[1..][k].id == rest;
      assert s[k + 1].id == rest;
      if s[0].id >= rest then s[0].id else rest
  }

  /** On an increasing list the last note carries the largest id. */
  lemma {:induction false} LastIsMax(s: seq<Note>)
    requires s != []
    ensures Increasing(s) ==> s[|s| - 1].id == MaxId(s)
  {
    if Increasing(s) {
      IncreasingIsOrdered(s);
      var k :| 0 <= k < |s| && s[k].id == MaxId(s);
      if k < |s| - 1 {
        assert s[k].id < s[|s| - 1].id;
      }
    }
  }

  /** The id a newly added note receives: one past the last note's id, or 0 for an empty list. */
  function NextId(s: seq<Note>): (r: int)
    ensures s == [] ==> r == 0
    ensures Increasing(s) ==> forall n :: n in s ==> n.id < r
    ensures Increasing(s) && s != [] ==> r == MaxId(s) + 1
  {
    if |s| > 0 then LastIsMax(s); s[|s| - 1].id + 1 else 0
  }

  /** The rule uses the last id, not the largest one: on a list whose ids are not increasing it repeats an id. */
  lemma LastRuleOnUnorderedList()
    ensures var s := [Note("a", 1), Note("b", 0)];
      NextId(s) == 1 == s[0].id && MaxId(s) + 1 == 2
  {
    var s := [Note("a", 1), Note("b", 0)];
    assert s[1..] == [Note("b", 0)];
  }

  /** The list a successful add produces: the old notes followed by one new note. */
  function Appended(s: seq<Note>, text: string): (r: seq<Note>)
    ensures |r| == |s| + 1 && r[..|s|] == s
    ensures r[|s|].note == text && r[|s|].id == NextId(s)
    ensures Increasing(s) ==> Increasing(r) && forall n :: n in s ==> n.id < r[|s|].id
  {
    var r := s + [Note(text, NextId(s))];
    assert r[..|s|] == s;
    r
  }

  /** Where JavaScript's `splice` starts for a given start argument: negative counts from the end, both ends clamp. */
  function SpliceStart(len: nat, start: int): (k: nat)
    ensures k <= len
  {
    if start < 0 then
      if len + start < 0 then 0 else len + start
    else if start > len then len
    else start
  }

  /** The list `splice(start, 1)` leaves: the note at the resolved start is removed, if there is one. */
  function Splice(s: seq<Note>, start: int): (r: seq<Note>)
    ensures 0 <= start < |s| ==> r == s[..start] + s[start + 1..]
    ensures start >= |s| ==> r == s
    ensures -|s| <= start < 0 ==> r == s[..|s| + start] + s[|s| + start + 1..]
    ensures start < -|s| && s != [] ==> r == s[1..]
    ensures |r| == if s == [] || start >= |s| then |s| else |s| - 1
    ensures 0 <= start < |s| ==> multiset(r) + multiset{s[start]} == multiset(s)
    ensures Increasing(s) ==> Increasing(r)
    ensures Increasing(s) && 0 <= start < |s| ==> forall n :: n in r ==> n.id != s[start].id
  {
    var k := SpliceStart(|s|, start);
    if k < |s| then
      RemovedAt(s, k);
      s[..k] + s[k + 1..]
    else
      s
  }

  lemma RemovedAt(s: seq<Note>, k: nat)
    requires k < |s|
    ensures multiset(s[..k] + s[k + 1..]) + multiset{s[k]} == multiset(s)
    ensures Increasing(s) ==> Increasing(s[..k] + s[k + 1..])
    ensures Increasing(s) ==> forall n :: n in s[..k] + s[k + 1..] ==> n.id != s[k].id
  {
    assert s == s[..k] + [s[k]] + s[k + 1..];
    if Increasing(s) {
      RemovedAtOrdered(s, k);
      RemovedAtIds(s, k);
    }
  }

  lemma RemovedAtOrdered(s: seq<Note>, k: nat)
    requires k < |s| && Increasing(s)
    ensures Increasing(s[..k] + s[k + 1..])
  {
    var r := s[..k] + s[k + 1..];
    IncreasingIsOrdered(s);
    assert Ordered(r) by {
      forall i, j | 0 <= i < j < |r| ensures r[i].id < r[j].id {
        var i' := if i < k then i else i + 1;
        var j' := if j < k then j else j + 1;
        assert r[i] == s[i'] && r[j] == s[j'];
      }
    }
    IncreasingIsOrdered(r);
  }

  lemma RemovedAtIds(s: seq<Note>, k: nat)
    requires k < |s| && Increasing(s)
    ensures forall n :: n in s[..k] + s[k + 1..] ==> n.id != s[k].id
  {
    var r := s[..k] + s[k + 1..];
    IncreasingIsOrdered(s);
    forall n | n in r ensures n.id != s[k].id {
      var p :| 0 <= p < |r| && r[p] == n;
      var p' := if p < k then p else p + 1;
      assert s[p'] == n && p' != k;
    }
  }

  /**
   Deleting the note with the largest id and adding again hands out an id no
   larger than the one just freed. A lone note needs a non-negative id for
   this: the empty list restarts at 0.
   */
  lemma IdReuseAfterDeletingLast(s: seq<Note>, text: string)
    requires Increasing(s) && s != []
    requires |s| == 1 ==> s[0].id >= 0
    ensures var r := Appended(Splice(s, |s| - 1), text);
      var before := if |s| == 1 then -1 else s[|s| - 2].id;
      r[|s| - 1].id <= s[|s| - 1].id &&
      (before + 1 == s[|s| - 1].id ==> r[|s| - 1].id == s[|s| - 1].id)
  {
  }
}
