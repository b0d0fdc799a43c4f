/** The exact text whose digest an audit entry carries (`_hash_entry` of `apps/trail/services.py`). */
module EntryText {
  import opened Basics
  import opened CanonicalJson
  import opened TrailLedger

  /** The text of one member of an entry. */
  function Field(key: string, value: Json): string {
    "\"" + key + "\":" + Canonical(value)
  }

  /** The keys of an entry's text ... */
  const TEXT_KEYS: seq<string> := [
    "action", "actor_display_name_snapshot", "actor_email_snapshot", "actor_id", "organization_id",
    "payload", "previous_hash", "sequence", "target_entity", "target_id"]

  /** ... and what stands under them. */
  function TextValues(a: Action, sequence: nat, previousHash: string): (r: seq<Json>)
    ensures |r| == 10
  {
    [Str(a.action), Str(a.actorDisplayName), Str(a.actorEmail), Num(a.actorId), Str(UuidText(a.organization)),
     a.payload, Str(previousHash), Num(sequence), Str(a.targetEntity), Str(UuidText(a.targetId))]
  }

  /** The text of an entry: these members in this order, between braces and separated by commas. */
  function EntryText(a: Action, sequence: nat, previousHash: string): string {
    "{" + Joined(seq(10, i requires 0 <= i < 10 => Field(TEXT_KEYS[i], TextValues(a, sequence, previousHash)[i]))) + "}"
  }

  /** What is hashed is exactly the entry's text. */
  lemma HashedText(h: string -> string, a: Action, sequence: nat, previousHash: string)
    ensures HashEntryWith(h)(a, sequence, previousHash) == h(EntryText(a, sequence, previousHash))
  {
    var ms, values := EntryMembers(a, sequence, previousHash), TextValues(a, sequence, previousHash);
    var fields := seq(10, i requires 0 <= i < 10 => Field(TEXT_KEYS[i], values[i]));
    SortedEntry(a, sequence, previousHash);
    PlainKeys();
    forall i | 0 <= i < 10 ensures fields[i] == MemberText(ms[i]) {
      FieldIs(TEXT_KEYS[i], values[i]);
    }
    CompactFormat([], ms, [], fields);
  }

  /** The members in that order, their values sorted. */
  function EntryMembers(a: Action, sequence: nat, previousHash: string): (r: seq<Member>)
    ensures |r| == 10
    ensures forall i :: 0 <= i < 10 ==> r[i] == Member(TEXT_KEYS[i], Sorted(TextValues(a, sequence, previousHash)[i]))
  {
    seq(10, i requires 0 <= i < 10 => Member(TEXT_KEYS[i], Sorted(TextValues(a, sequence, previousHash)[i])))
  }

  lemma {:induction false} FieldIs(key: string, value: Json)
    requires Plain(key)
    ensures Field(key, value) == MemberText(Member(key, Sorted(value)))
  {
    PlainFormat(key);
    Assoc("\"" + key, "\"", ":");
    assert "\"" + ":" == "\":";
  }

  lemma PlainKeys()
    ensures forall i :: 0 <= i < 10 ==> Plain(TEXT_KEYS[i])
  {
    PlainActorKeys();
    PlainOtherKeys();
    PlainTargetKeys();
    forall i | 0 <= i < 10 ensures Plain(TEXT_KEYS[i]) {
      assert TEXT_KEYS[i] in TEXT_KEYS[..4] + TEXT_KEYS[4..7] + TEXT_KEYS[7..];
    }
  }

  lemma PlainActorKeys()
    ensures forall key :: key in TEXT_KEYS[..4] ==> Plain(key)
  {
  }

  lemma PlainOtherKeys()
    ensures forall key :: key in TEXT_KEYS[4..7] ==> Plain(key)
  {
  }

  lemma PlainTargetKeys()
    ensures forall key :: key in TEXT_KEYS[7..] ==> Plain(key)
  {
  }

  /** Where the hashed dict has the members of the text, and the other way round. */
  const IN_DICT: seq<nat> := [4, 3, 2, 1, 0, 7, 9, 8, 5, 6]
  const IN_TEXT: seq<nat> := [4, 3, 2, 1, 0, 8, 9, 5, 7, 6]

  /** Sorting the hashed dict by key gives these members. */
  lemma SortedEntry(a: Action, sequence: nat, previousHash: string)
    ensures Sorted(HashObject(a, sequence, previousHash)) == Obj(EntryMembers(a, sequence, previousHash))
  {
    var unsorted := SortedMembers(Zip(HASH_KEYS, HashValues(a, sequence, previousHash)));
    HashKeysDistinct();
    SortAscends(unsorted);
    EntryAscends(a, sequence, previousHash);
    SameEntryMembers(a, sequence, previousHash);
    AscendingUnique(SortByKey(unsorted), EntryMembers(a, sequence, previousHash));
  }

  lemma SameEntryMembers(a: Action, sequence: nat, previousHash: string)
    ensures Content(SortedMembers(Zip(HASH_KEYS, HashValues(a, sequence, previousHash))))
            == Content(EntryMembers(a, sequence, previousHash))
  {
    KeysMatch();
    ValuesMatch(a, sequence, previousHash);
    Reordered(SortedMembers(Zip(HASH_KEYS, HashValues(a, sequence, previousHash))), EntryMembers(a, sequence, previousHash),
              IN_DICT, IN_TEXT);
  }

  lemma KeysMatch()
    ensures forall i :: 0 <= i < 10 ==> 0 <= IN_DICT[i] < 10 && TEXT_KEYS[i] == HASH_KEYS[IN_DICT[i]]
    ensures forall i :: 0 <= i < 10 ==> 0 <= IN_TEXT[i] < 10 && IN_DICT[IN_TEXT[i]] == i
  {
  }

  lemma ValuesMatch(a: Action, sequence: nat, previousHash: string)
    ensures forall i :: 0 <= i < 10 ==>
              0 <= IN_DICT[i] < 10 && TextValues(a, sequence, previousHash)[i] == HashValues(a, sequence, previousHash)[IN_DICT[i]]
  {
  }

  lemma Reordered(xs: seq<Member>, ys: seq<Member>, to: seq<nat>, back: seq<nat>)
    requires |xs| == |ys| == |to| == |back|
    requires forall i :: 0 <= i < |to| ==> 0 <= to[i] < |xs| && ys[i] == xs[to[i]]
    requires forall i :: 0 <= i < |back| ==> 0 <= back[i] < |xs| && to[back[i]] == i
    ensures Content(xs) == Content(ys)
  {
    forall m | m in Content(xs) ensures m in Content(ys) {
      var i :| 0 <= i < |xs| && xs[i] == m;
      assert ys[back[i]] == m;
    }
    forall m | m in Content(ys) ensures m in Content(xs) {
      var i :| 0 <= i < |ys| && ys[i] == m;
      assert xs[to[i]] == m;
    }
  }

  /** Keys that ascend from one to the next ascend. */
  lemma {:induction false} StepsAscend(ms: seq<Member>)
    requires forall i :: 0 < i < |ms| ==> KeyLess(ms[i - 1].key, ms[i].key)
    ensures Ascending(ms)
  {
    if |ms| > 1 {
      var front := ms[..|ms| - 1];
      StepsAscend(front);
      forall i | 0 <= i < |ms| - 1 ensures KeyLess(ms[i].key, ms[|ms| - 1].key) {
        if i < |ms| - 2 {
          assert KeyLess(front[i].key, front[|ms| - 2].key);
          KeyLessTransitive(ms[i].key, ms[|ms| - 2].key, ms[|ms| - 1].key);
        }
      }
      forall i, j | 0 <= i < j < |front| ensures KeyLess(ms[i].key, ms[j].key) {
        assert KeyLess(front[i].key, front[j].key);
      }
    }
  }

  lemma EntryAscends(a: Action, sequence: nat, previousHash: string)
    ensures Ascending(EntryMembers(a, sequence, previousHash))
  {
    ActorKeysAscend();
    OtherKeysAscend();
    TargetKeysAscend();
    StepsAscend(EntryMembers(a, sequence, previousHash));
  }

  lemma ActorKeysAscend()
    ensures forall i :: 0 < i < 4 ==> KeyLess(TEXT_KEYS[i - 1], TEXT_KEYS[i])
  {
    FirstKeysAscend();
    SnapshotKeysAscend();
    LastActorKeysAscend();
  }

  lemma FirstKeysAscend()
    ensures KeyLess(TEXT_KEYS[0], TEXT_KEYS[1])
  {
    KeyLessFrom(TEXT_KEYS[0], TEXT_KEYS[1], 3);
  }

  lemma SnapshotKeysAscend()
    ensures KeyLess(TEXT_KEYS[1], TEXT_KEYS[2])
  {
    KeyLessFrom(TEXT_KEYS[1], TEXT_KEYS[2], 6);
  }

  lemma LastActorKeysAscend()
    ensures KeyLess(TEXT_KEYS[2], TEXT_KEYS[3])
  {
    KeyLessFrom(TEXT_KEYS[2], TEXT_KEYS[3], 6);
  }

  lemma OtherKeysAscend()
    ensures forall i :: 4 <= i < 8 ==> KeyLess(TEXT_KEYS[i - 1], TEXT_KEYS[i])
  {
    KeyLessFrom(TEXT_KEYS[3], TEXT_KEYS[4], 0);
    KeyLessFrom(TEXT_KEYS[4], TEXT_KEYS[5], 0);
    KeyLessFrom(TEXT_KEYS[5], TEXT_KEYS[6], 1);
    KeyLessFrom(TEXT_KEYS[6], TEXT_KEYS[7], 0);
  }

  lemma TargetKeysAscend()
    ensures forall i :: 8 <= i < 10 ==> KeyLess(TEXT_KEYS[i - 1], TEXT_KEYS[i])
  {
    KeyLessFrom(TEXT_KEYS[7], TEXT_KEYS[8], 0);
    KeyLessFrom(TEXT_KEYS[8], TEXT_KEYS[9], 7);
  }

  lemma {:induction false} KeyLessFrom(a: string, b: string, i: nat)
    requires i < |a| && i < |b| && a[i] < b[i] && forall j :: 0 <= j < i ==> a[j] == b[j]
    ensures KeyLess(a, b)
  {
    assert a[..i] == b[..i] && DiffersAt(a, b, i);
    KeyLessAt(a, b, i);
  }
}
