/** The persistence store: two storage slots, one holding the subscription list and
    one the stored settings, and the operations that read and rewrite them. Every
    operation reads a whole slot, computes, and writes the whole slot back. */
module Storage {
  import opened Wrappers
  import opened Types
  import opened Settings
  import opened Text
  import opened Tsv

  /** `findIndex(sub => sub.id === id)`: the first position holding the id, or -1. */
  function IndexOfId(s: seq<Subscription>, id: string): (r: int)
    ensures -1 <= r < |s|
    ensures r == -1 <==> !HasId(s, id)
    ensures r >= 0 ==> s[r].id == id && forall k :: 0 <= k < r ==> s[k].id != id
  {
    if s == [] then -1
    else if s[0].id == id then 0
    else
      var r := IndexOfId(s[1..], id);
      assert forall k :: 1 <= k < |s| ==> s[k] == s[1..][k - 1];
      if r == -1 then -1 else r + 1
  }

  /** `filter(sub => sub.id !== id)`: the records with another id, in their order. */
  function WithoutId(s: seq<Subscription>, id: string): (r: seq<Subscription>)
    ensures |r| <= |s|
    ensures |r| == |s| <==> !HasId(s, id)
    ensures forall x :: x in r <==> x in s && x.id != id
  {
    if s == [] then []
    else
      var rest := WithoutId(s[1..], id);
      assert s == [s[0]] + s[1..];
      assert HasId(s, id) <==> s[0].id == id || HasId(s[1..], id) by {
        assert forall k :: 1 <= k < |s| ==> s[k] == s[1..][k - 1];
      }
      if s[0].id == id then rest else [s[0]] + rest
  }

  /** Filtering keeps the order: it distributes over concatenation. */
  lemma {:induction false} WithoutIdAppend(a: seq<Subscription>, b: seq<Subscription>, id: string)
    ensures WithoutId(a + b, id) == WithoutId(a, id) + WithoutId(b, id)
    decreases |a|
  {
    if a == [] {
      assert a + b == b;
    } else {
      assert (a + b)[1..] == a[1..] + b;
      WithoutIdAppend(a[1..], b, id);
    }
  }

  /** The tail of a list with unique ids has unique ids. */
  lemma TailUnique(s: seq<Subscription>)
    requires s != [] && UniqueIds(s)
    ensures UniqueIds(s[1..])
  {
    forall i, j | 0 <= i < j < |s[1..]| ensures s[1..][i].id != s[1..][j].id {
      assert s[1..][i] == s[i + 1] && s[1..][j] == s[j + 1];
    }
  }

  /** With unique ids, no later record shares the first record's id. */
  lemma HeadIdNotInTail(s: seq<Subscription>, x: Subscription)
    requires s != [] && UniqueIds(s) && x in s[1..]
    ensures x.id != s[0].id
  {
    var m :| 0 <= m < |s[1..]| && s[1..][m] == x;
    assert s[m + 1] == x;
  }

  /** Deleting keeps ids unique. */
  lemma {:induction false} WithoutIdUnique(s: seq<Subscription>, id: string)
    requires UniqueIds(s)
    ensures UniqueIds(WithoutId(s, id))
    decreases |s|
  {
    if s != [] {
      TailUnique(s);
      WithoutIdUnique(s[1..], id);
      var rest := WithoutId(s[1..], id);
      if s[0].id != id {
        var r := [s[0]] + rest;
        forall i, j | 0 <= i < j < |r| ensures r[i].id != r[j].id {
          if i == 0 {
            assert r[j] == rest[j - 1];
            HeadIdNotInTail(s, r[j]);
          } else {
            assert r[i] == rest[i - 1] && r[j] == rest[j - 1];
          }
        }
      }
    }
  }

  /** With unique ids, deleting a present id removes exactly one record. */
  lemma {:induction false} WithoutIdRemovesOne(s: seq<Subscription>, id: string)
    requires UniqueIds(s) && HasId(s, id)
    ensures |WithoutId(s, id)| == |s| - 1
    decreases |s|
  {
    TailUnique(s);
    if s[0].id == id {
      assert !HasId(s[1..], id) by {
        forall k | 0 <= k < |s[1..]| ensures s[1..][k].id != id {
          assert s[1..][k] == s[k + 1];
        }
      }
    } else {
      var k :| 0 <= k < |s| && s[k].id == id;
      assert s[1..][k - 1] == s[k];
      WithoutIdRemovesOne(s[1..], id);
    }
  }

  /** Replacing one record by a record with the same id keeps ids unique. */
  lemma ReplaceKeepsUnique(s: seq<Subscription>, i: nat, x: Subscription)
    requires i < |s| && UniqueIds(s) && x.id == s[i].id
    ensures UniqueIds(s[i := x])
  {
  }

  /** Appending a record whose id is new keeps ids unique. */
  lemma AppendKeepsUnique(s: seq<Subscription>, x: Subscription)
    requires UniqueIds(s) && !HasId(s, x.id)
    ensures UniqueIds(s + [x])
  {
    var r := s + [x];
    forall i, j | 0 <= i < j < |r| ensures r[i].id != r[j].id {
      if j == |s| {
        assert r[i] == s[i];
      }
    }
  }

  /** The store. `subscriptions` and `settings` are the contents of the two slots, held
      as decoded values; the ghost counters count the writes to each slot. */
  class Store {
    var subscriptions: seq<Subscription>
    var settings: Option<PartialSettings>
    ghost var subscriptionWrites: nat
    ghost var settingsWrites: nat

    /** Empty storage: neither slot holds anything. */
    constructor ()
      ensures subscriptions == [] && settings == None
      ensures subscriptionWrites == 0 && settingsWrites == 0
    {
      subscriptions := [];
      settings := None;
      subscriptionWrites := 0;
      settingsWrites := 0;
    }

    /** `getSubscriptions`: the stored list (empty when nothing is stored). */
    method GetSubscriptions() returns (r: seq<Subscription>)
      ensures r == subscriptions
    {
      r := subscriptions;
    }

    /** `saveSubscriptions`: one write that replaces the whole list. */
    method SaveSubscriptions(list: seq<Subscription>)
      modifies this
      ensures subscriptions == list && subscriptionWrites == old(subscriptionWrites) + 1
      ensures settings == old(settings) && settingsWrites == old(settingsWrites)
    {
      subscriptions := list;
      subscriptionWrites := subscriptionWrites + 1;
    }

    /** `addSubscription`: appends one new record carrying the caller's fields, the
        given id and `now` as both timestamps; earlier records stay as they were. */
    method AddSubscription(input: SubscriptionInput, id: string, now: string)
      returns (created: Subscription)
      modifies this
      ensures InputOf(created) == input
      ensures created.id == id && created.createdAt == now && created.updatedAt == now
      ensures subscriptions == old(subscriptions) + [created]
      ensures subscriptionWrites == old(subscriptionWrites) + 1
      ensures settings == old(settings) && settingsWrites == old(settingsWrites)
      ensures UniqueIds(old(subscriptions)) && !HasId(old(subscriptions), id) ==> UniqueIds(subscriptions)
    {
      var list := GetSubscriptions();
      created := NewRecord(input, id, now);
      list := list + [created];
      SaveSubscriptions(list);
      if UniqueIds(old(subscriptions)) && !HasId(old(subscriptions), id) {
        AppendKeepsUnique(old(subscriptions), created);
      }
    }

    /** `updateSubscription`: an absent id gives `None` and no write; otherwise the
        first record with the id is replaced by itself overlaid with the update (same
        id and creation time, `updatedAt` set to `now`), and nothing else changes. */
    method UpdateSubscription(id: string, updates: SubscriptionUpdate, now: string)
      returns (updated: Option<Subscription>)
      modifies this
      ensures updated.None? <==> !HasId(old(subscriptions), id)
      ensures updated.None? ==>
                subscriptions == old(subscriptions) && subscriptionWrites == old(subscriptionWrites)
      ensures updated.Some? ==>
                var i := IndexOfId(old(subscriptions), id);
                && updated.value == ApplyUpdate(old(subscriptions)[i], updates, now)
                && subscriptions == old(subscriptions)[i := updated.value]
                && subscriptionWrites == old(subscriptionWrites) + 1
      ensures |subscriptions| == |old(subscriptions)|
      ensures settings == old(settings) && settingsWrites == old(settingsWrites)
      ensures UniqueIds(old(subscriptions)) ==> UniqueIds(subscriptions)
    {
      var list := GetSubscriptions();
      var index := IndexOfId(list, id);
      if index == -1 {
        return None;
      }
      var record := ApplyUpdate(list[index], updates, now);
      list := list[index := record];
      SaveSubscriptions(list);
      updated := Some(record);
      if UniqueIds(old(subscriptions)) {
        ReplaceKeepsUnique(old(subscriptions), index, record);
      }
    }

    /** `deleteSubscription`: `false` and no write when no record has the id; otherwise
        every record with the id is removed, the rest keep their order, and `true`. */
    method DeleteSubscription(id: string) returns (deleted: bool)
      modifies this
      ensures deleted <==> HasId(old(subscriptions), id)
      ensures deleted ==>
                subscriptions == WithoutId(old(subscriptions), id) &&
                subscriptionWrites == old(subscriptionWrites) + 1
      ensures !deleted ==>
                subscriptions == old(subscriptions) && subscriptionWrites == old(subscriptionWrites)
      ensures !HasId(subscriptions, id) || !deleted
      ensures settings == old(settings) && settingsWrites == old(settingsWrites)
    {
      var list := GetSubscriptions();
      var filtered := WithoutId(list, id);
      if |filtered| == |list| {
        return false;
      }
      SaveSubscriptions(filtered);
      deleted := true;
    }

    /** `getSettings`: the stored keys over the defaults, or the defaults alone. */
    method GetSettings() returns (r: AppSettings)
      ensures r == Effective(settings)
      ensures settings.None? ==> r == DEFAULT_SETTINGS
    {
      if settings.None? {
        r := DEFAULT_SETTINGS;
      } else {
        r := Overlay(DEFAULT_SETTINGS, settings.value);
      }
    }

    /** `saveSettings`: the current settings overlaid with `p` are stored in full and
        returned, so later reads give them back; keys missing from `p` keep their value. */
    method SaveSettings(p: PartialSettings) returns (r: AppSettings)
      modifies this
      ensures r == Overlay(Effective(old(settings)), p)
      ensures settings == Some(AllKeys(r)) && Effective(settings) == r
      ensures settingsWrites == old(settingsWrites) + 1
      ensures subscriptions == old(subscriptions) && subscriptionWrites == old(subscriptionWrites)
    {
      var current := GetSettings();
      r := Overlay(current, p);
      settings := Some(AllKeys(r));
      settingsWrites := settingsWrites + 1;
      OverlayAllKeys(DEFAULT_SETTINGS, r);
    }

    /** `exportToTSV`: the tab-separated text of the stored list; nothing is written. */
    method ExportToTSV(show: real -> string) returns (text: string)
      ensures text == Export(subscriptions, show)
      ensures text == [] <==> subscriptions == []
    {
      var list := GetSubscriptions();
      text := Export(list, show);
    }

    /** `importFromTSV`: all or nothing. On success the stored list is replaced by the
        records read from the text and their number is reported; on any failure the
        store is not written and the reason is reported with a count of zero. Row `k`
        gets id `newId(k)`; `now` stands for the single clock reading of the import. */
    method ImportFromTSV(text: string, newId: nat -> string, now: string,
                         parse: string -> Option<real>) returns (result: ImportResult)
      modifies this
      ensures var spec := ParseImport(text, newId, now, parse);
        && (spec.Ok? ==>
              && result == ImportResult(true, |spec.value|, None)
              && subscriptions == spec.value
              && subscriptionWrites == old(subscriptionWrites) + 1)
        && (spec.Err? ==>
              && result == ImportResult(false, 0, Some(ErrorMessage(spec.error)))
              && subscriptions == old(subscriptions)
              && subscriptionWrites == old(subscriptionWrites))
      ensures settings == old(settings) && settingsWrites == old(settingsWrites)
    {
      var lines := ImportLines(text);
      ghost var spec := ParseImport(text, newId, now, parse);
      if |lines| < 2 {
        assert spec == Err(InvalidFormat);
        return ImportResult(false, 0, Some(ErrorMessage(InvalidFormat)));
      }
      var dataLines := lines[1..];
      var imported: seq<Subscription> := [];
      var i := 0;
      assert dataLines[..0] == [];
      while i < |dataLines|
        invariant 0 <= i <= |dataLines|
        invariant ParseRows(dataLines[..i], newId, now, parse) == Ok(imported)
        invariant unchanged(this)
        invariant spec == ParseRows(dataLines, newId, now, parse)
      {
        ParseRowsStep(dataLines, i, imported, newId, now, parse);
        var parts := Split(dataLines[i], TAB);
        if !(Present(parts, 0) && Present(parts, 1) && Present(parts, 4)) {
          assert spec == Err(MissingFields);
          return ImportResult(false, 0, Some(ErrorMessage(MissingFields)));
        }
        var priceValue := parse(parts[2]);
        if priceValue.None? {
          assert spec == Err(InvalidPrice);
          return ImportResult(false, 0, Some(ErrorMessage(InvalidPrice)));
        }
        var record := Subscription(newId(i), parts[0], parts[1], priceValue.value,
                                   parts[3], parts[4], now, now);
        assert ParseRow(dataLines[i], newId(i), now, parse) == Ok(record);
        imported := imported + [record];
        i := i + 1;
      }
      assert dataLines[..i] == dataLines;
      SaveSubscriptions(imported);
      result := ImportResult(true, |imported|, None);
    }
  }
}
