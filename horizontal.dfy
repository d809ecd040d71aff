/**
 * Strategy A of `extract_all_items`: line items written on one line
 * (`06039000 FRESH MIXED FLOWERS & GARLANDS 632 KGS 3 1896`).  Every match
 * of the item pattern is cleaned, fragments are dropped, and a match whose
 * (code, quantity, rate, total) key was already kept is skipped.
 */
module Horizontal {
  import opened Text
  import opened Patterns

  /** The de-duplication key of a match: HS code, quantity, rate, total. */
  datatype Key = Key(code: string, qty: string, rate: string, total: string)

  function KeyOf(m: ItemRecord): Key {
    Key(m.code, m.qty, m.rate, m.total)
  }

  /** A match once its description is cleaned: its key and the item it would become. */
  datatype Candidate = Candidate(key: Key, item: Item)

  function CandidateOf(m: ItemRecord): Candidate {
    Candidate(KeyOf(m), Item(CleanDescription(m.rawDescription), m.qty, m.rate, m.total))
  }

  function Candidates(ms: seq<ItemRecord>): seq<Candidate> {
    seq(|ms|, i requires 0 <= i < |ms| => CandidateOf(ms[i]))
  }

  /**
   * What a kept description looks like: at least ten characters, a space,
   * no whitespace at the start and no `&` or whitespace at the end.
   */
  predicate IsFullDescription(d: string) {
    |d| >= 10 && ' ' in d && !IsSpace(d[0]) && d[|d| - 1] != '&' && !IsSpace(d[|d| - 1])
  }

  /** The fragment test: a description shorter than ten characters or without a space. */
  predicate IsFragment(d: string) {
    |d| < 10 || ' ' !in d
  }

  /**
   * The candidates, in order, that become items when the keys in `seen` are
   * already taken: none is a fragment and each one's key is new.
   */
  function KeptFrom(cs: seq<Candidate>, seen: set<Key>): (kept: seq<Candidate>)
    ensures |kept| <= |cs|
    ensures forall k :: 0 <= k < |kept| ==> !IsFragment(kept[k].item.description) && kept[k].key !in seen
    decreases |cs|
  {
    if cs == [] then []
    else if IsFragment(cs[0].item.description) || cs[0].key in seen then KeptFrom(cs[1..], seen)
    else [cs[0]] + KeptFrom(cs[1..], seen + {cs[0].key})
  }

  /** The keys taken once the candidates `cs` have been read. */
  function SeenAfter(cs: seq<Candidate>, seen: set<Key>): set<Key>
    decreases |cs|
  {
    if cs == [] then seen
    else if IsFragment(cs[0].item.description) || cs[0].key in seen then SeenAfter(cs[1..], seen)
    else SeenAfter(cs[1..], seen + {cs[0].key})
  }

  function ItemsOf(kept: seq<Candidate>): seq<Item> {
    seq(|kept|, k requires 0 <= k < |kept| => kept[k].item)
  }

  /** Keeping one more candidate adds its item at the end. */
  lemma ItemsOfAppend(kept: seq<Candidate>, c: Candidate)
    ensures ItemsOf(kept + [c]) == ItemsOf(kept) + [c.item]
  {
  }

  /**
   * Strategy A's items from the matches of the item pattern, in match order:
   * at most one per match, and none of them a fragment.
   */
  function HorizontalItems(ms: seq<ItemRecord>): (items: seq<Item>)
    ensures |items| <= |ms|
    ensures forall k :: 0 <= k < |items| ==> !IsFragment(items[k].description)
  {
    ItemsOf(KeptFrom(Candidates(ms), {}))
  }

  /** No two kept candidates share a key. */
  lemma {:induction false} KeptKeysDistinct(cs: seq<Candidate>, seen: set<Key>)
    ensures forall a, b :: 0 <= a < b < |KeptFrom(cs, seen)| ==> KeptFrom(cs, seen)[a].key != KeptFrom(cs, seen)[b].key
    decreases |cs|
  {
    if cs != [] {
      if IsFragment(cs[0].item.description) || cs[0].key in seen {
        KeptKeysDistinct(cs[1..], seen);
        assert KeptFrom(cs, seen) == KeptFrom(cs[1..], seen);
      } else {
        var rest := KeptFrom(cs[1..], seen + {cs[0].key});
        KeptKeysDistinct(cs[1..], seen + {cs[0].key});
        var kept := KeptFrom(cs, seen);
        assert kept == [cs[0]] + rest;
        forall a, b | 0 <= a < b < |kept| ensures kept[a].key != kept[b].key {
          assert kept[b] == rest[b - 1];
          if a > 0 {
            assert kept[a] == rest[a - 1];
            assert rest[a - 1].key != rest[b - 1].key;
          } else {
            assert kept[a] == cs[0];
            assert rest[b - 1].key !in seen + {cs[0].key};
          }
        }
      }
    }
  }

  /** Every kept candidate is one of the candidates. */
  lemma {:induction false} KeptAreCandidates(cs: seq<Candidate>, seen: set<Key>)
    ensures forall c :: c in KeptFrom(cs, seen) ==> c in cs
    decreases |cs|
  {
    if cs != [] {
      var seen' := if IsFragment(cs[0].item.description) || cs[0].key in seen then seen else seen + {cs[0].key};
      KeptAreCandidates(cs[1..], seen');
      assert forall c :: c in cs[1..] ==> c in cs;
    }
  }

  /** The taken keys only grow. */
  lemma {:induction false} SeenAfterGrows(cs: seq<Candidate>, seen: set<Key>)
    ensures seen <= SeenAfter(cs, seen)
    decreases |cs|
  {
    if cs != [] {
      if IsFragment(cs[0].item.description) || cs[0].key in seen {
        SeenAfterGrows(cs[1..], seen);
      } else {
        SeenAfterGrows(cs[1..], seen + {cs[0].key});
      }
    }
  }

  /**
   * Nothing is lost but repeats: every candidate that is not a fragment has
   * its key taken at the end, and the keys taken are those seen before plus
   * those of the kept candidates.
   */
  lemma {:induction false} SeenAfterIsKeptKeys(cs: seq<Candidate>, seen: set<Key>)
    ensures forall c :: c in cs && !IsFragment(c.item.description) ==> c.key in SeenAfter(cs, seen)
    ensures SeenAfter(cs, seen) == seen + set c | c in KeptFrom(cs, seen) :: c.key
    decreases |cs|
  {
    if cs != [] {
      var seen' := if IsFragment(cs[0].item.description) || cs[0].key in seen then seen else seen + {cs[0].key};
      SeenAfterIsKeptKeys(cs[1..], seen');
      SeenAfterGrows(cs[1..], seen');
      assert forall c :: c in cs ==> c == cs[0] || c in cs[1..];
      if seen' != seen {
        assert KeptFrom(cs, seen) == [cs[0]] + KeptFrom(cs[1..], seen');
      }
    }
  }

  /** One more candidate is kept exactly when it is no fragment and its key was not taken by the earlier ones. */
  lemma {:induction false} KeptAppend(cs: seq<Candidate>, x: Candidate, seen: set<Key>)
    ensures KeptFrom(cs + [x], seen) ==
      KeptFrom(cs, seen) + (if !IsFragment(x.item.description) && x.key !in SeenAfter(cs, seen) then [x] else [])
    decreases |cs|
  {
    if cs == [] {
      assert [x][1..] == [];
    } else {
      assert (cs + [x])[0] == cs[0];
      assert (cs + [x])[1..] == cs[1..] + [x];
      if IsFragment(cs[0].item.description) || cs[0].key in seen {
        KeptAppend(cs[1..], x, seen);
      } else {
        KeptAppend(cs[1..], x, seen + {cs[0].key});
      }
    }
  }

  /** One more candidate takes its key exactly when it is no fragment. */
  lemma {:induction false} SeenAppend(cs: seq<Candidate>, x: Candidate, seen: set<Key>)
    ensures SeenAfter(cs + [x], seen) ==
      if IsFragment(x.item.description) then SeenAfter(cs, seen) else SeenAfter(cs, seen) + {x.key}
    decreases |cs|
  {
    if cs == [] {
      assert [x][1..] == [];
    } else {
      assert (cs + [x])[0] == cs[0];
      assert (cs + [x])[1..] == cs[1..] + [x];
      if IsFragment(cs[0].item.description) || cs[0].key in seen {
        SeenAppend(cs[1..], x, seen);
      } else {
        SeenAppend(cs[1..], x, seen + {cs[0].key});
      }
    }
  }

  /** A match repeated later in the text adds no item. */
  lemma RepeatAddsNothing(ms: seq<ItemRecord>, x: ItemRecord)
    requires x in ms
    ensures HorizontalItems(ms + [x]) == HorizontalItems(ms)
  {
    var cs := Candidates(ms);
    var c := CandidateOf(x);
    CandidatesAppend(ms, x);
    RepeatKeyTaken(cs, c, {});
    KeptAppend(cs, c, {});
    assert KeptFrom(cs + [c], {}) == KeptFrom(cs, {});
  }

  /** One more match adds its candidate at the end; a match already read gives a candidate already there. */
  lemma CandidatesAppend(ms: seq<ItemRecord>, x: ItemRecord)
    ensures Candidates(ms + [x]) == Candidates(ms) + [CandidateOf(x)]
    ensures x in ms ==> CandidateOf(x) in Candidates(ms)
  {
    var a := Candidates(ms + [x]);
    var b := Candidates(ms) + [CandidateOf(x)];
    forall i | 0 <= i < |a| ensures a[i] == b[i] {
      if i < |ms| {
        assert (ms + [x])[i] == ms[i];
      }
    }
    if x in ms {
      var i :| 0 <= i < |ms| && ms[i] == x;
      assert Candidates(ms)[i] == CandidateOf(x);
    }
  }

  /** A candidate read before, when it is no fragment, has its key taken. */
  lemma RepeatKeyTaken(cs: seq<Candidate>, c: Candidate, seen: set<Key>)
    requires c in cs
    ensures !IsFragment(c.item.description) ==> c.key in SeenAfter(cs, seen)
  {
    SeenAfterIsKeptKeys(cs, seen);
  }

  /** A kept candidate is the candidate of some match. */
  lemma KeptFromMatch(ms: seq<ItemRecord>, c: Candidate) returns (m: ItemRecord)
    requires c in KeptFrom(Candidates(ms), {})
    ensures m in ms && c == CandidateOf(m) && !IsFragment(c.item.description)
  {
    var cs := Candidates(ms);
    KeptAreCandidates(cs, {});
    var i :| 0 <= i < |cs| && cs[i] == c;
    m := ms[i];
    var kept := KeptFrom(cs, {});
    var k :| 0 <= k < |kept| && kept[k] == c;
  }

  /** The candidate of a match that is no fragment has a clean description of at least ten characters. */
  lemma KeptDescriptionClean(m: ItemRecord)
    requires !IsFragment(CandidateOf(m).item.description)
    ensures IsFullDescription(CandidateOf(m).item.description)
  {
  }

  /**
   * Every Strategy A description has at least ten characters, holds a space,
   * and neither starts with whitespace nor ends with `&` or whitespace.
   */
  lemma HorizontalItemsClean(ms: seq<ItemRecord>)
    ensures forall k :: 0 <= k < |HorizontalItems(ms)| ==> IsFullDescription(HorizontalItems(ms)[k].description)
  {
    var kept := KeptFrom(Candidates(ms), {});
    forall k | 0 <= k < |kept| ensures IsFullDescription(kept[k].item.description) {
      var m := KeptFromMatch(ms, kept[k]);
      KeptDescriptionClean(m);
    }
  }

  /** With sound patterns, every quantity, rate and total of a Strategy A item is a run of digits. */
  lemma HorizontalAmountsAreDigits(text: string, rx: Searches)
    requires Sound(rx)
    ensures var items := HorizontalItems(rx.itemRecords(text));
      forall k :: 0 <= k < |items| ==> IsDigits(items[k].qty) && IsDigits(items[k].rate) && IsDigits(items[k].total)
  {
    var ms := rx.itemRecords(text);
    var kept := KeptFrom(Candidates(ms), {});
    forall k | 0 <= k < |kept|
      ensures IsDigits(kept[k].item.qty) && IsDigits(kept[k].item.rate) && IsDigits(kept[k].item.total)
    {
      var m := KeptFromMatch(ms, kept[k]);
      assert IsItemRecord(m);
    }
  }

  /** Reading the next candidate in the loop: it is skipped as a fragment, skipped as a repeat, or kept and its key taken. */
  lemma ReadStep(cs: seq<Candidate>, i: nat, kept: seq<Candidate>, seen: set<Key>)
    requires i < |cs| && kept == KeptFrom(cs[..i], {}) && seen == SeenAfter(cs[..i], {})
    ensures IsFragment(cs[i].item.description) ==> KeptFrom(cs[..i + 1], {}) == kept && SeenAfter(cs[..i + 1], {}) == seen
    ensures !IsFragment(cs[i].item.description) && cs[i].key in seen ==> KeptFrom(cs[..i + 1], {}) == kept && SeenAfter(cs[..i + 1], {}) == seen
    ensures !IsFragment(cs[i].item.description) && cs[i].key !in seen ==>
      KeptFrom(cs[..i + 1], {}) == kept + [cs[i]] && SeenAfter(cs[..i + 1], {}) == seen + {cs[i].key}
  {
    assert cs[..i + 1] == cs[..i] + [cs[i]];
    KeptAppend(cs[..i], cs[i], {});
    SeenAppend(cs[..i], cs[i], {});
    assert kept + [] == kept;
  }

  /** One match's key and its item, the description cleaned (lines 113-130). */
  method ReadMatch(m: ItemRecord) returns (key: Key, item: Item)
    ensures Candidate(key, item) == CandidateOf(m)
  {
    var desc := CleanDescription(m.rawDescription);
    key := Key(m.code, m.qty, m.rate, m.total);
    item := Item(desc, m.qty, m.rate, m.total);
  }

  /**
   * The Strategy A loop (lines 109-131): clean each match's description,
   * skip fragments, and append the item when its key is new.
   */
  method CollectHorizontal(ms: seq<ItemRecord>) returns (items: seq<Item>)
    ensures items == HorizontalItems(ms)
  {
    items := [];
    var seen: set<Key> := {};
    ghost var cs := Candidates(ms);
    ghost var kept: seq<Candidate> := [];
    for i := 0 to |ms|
      invariant kept == KeptFrom(cs[..i], {})
      invariant seen == SeenAfter(cs[..i], {})
      invariant items == ItemsOf(kept)
    {
      var key, item := ReadMatch(ms[i]);
      assert cs[i] == Candidate(key, item);
      ReadStep(cs, i, kept, seen);
      if IsFragment(item.description) {
        continue;
      }
      if key !in seen {
        seen := seen + {key};
        ItemsOfAppend(kept, cs[i]);
        items := items + [item];
        kept := kept + [cs[i]];
      }
    }
    assert cs[..|ms|] == cs;
  }
}
