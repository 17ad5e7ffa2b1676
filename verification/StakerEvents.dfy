/**
 From the chain's staker events to the ledger's cache: the entries of one block are grouped by
 feeder, with the least and the greatest deposit version of each, and handed to the cache.
 */
module StakerEvents {
  import opened Prelude
  import opened Splitting
  import opened Ledger
  import opened LedgerRuns

  /** One entry after its fields are read, or one that cannot be read. */
  datatype Item =
    | Unreadable
    | Entry(feederID: nat, stakerIndex: nat, stakerAddr: string, validator: string, isWithdraw: bool, version: nat, amount: uint64)

  datatype StakerEvent = StakerEvent(withdraws: seq<Withdraw>, deposits: Pending, nextVersion: nat, latestVersion: nat)

  const NoEvent := StakerEvent([], map[], 0, 0)

  /** One entry added to its feeder's event; a deposit version may come only once. */
  function AddEntry(e: StakerEvent, x: Item): Option<StakerEvent>
    requires x.Entry?
  {
    if x.isWithdraw then Some(e.(withdraws := e.withdraws + [Withdraw(x.stakerIndex, x.version)]))
    else if x.version in e.deposits then None
    else
      Some(StakerEvent(e.withdraws,
                       e.deposits[x.version := Deposit(x.stakerIndex, x.stakerAddr, x.validator, x.amount)],
                       if e.nextVersion == 0 || x.version < e.nextVersion then x.version else e.nextVersion,
                       if x.version > e.latestVersion then x.version else e.latestVersion))
  }

  /** The event of one feeder, read off its own entries in order. */
  function EventOf(items: seq<Item>, feeder: nat): Option<StakerEvent> {
    if items == [] then Some(NoEvent)
    else
      var last := items[|items| - 1];
      match EventOf(items[..|items| - 1], feeder)
      case None => None
      case Some(e) =>
        if last.Unreadable? then None
        else if last.feederID != feeder then Some(e)
        else AddEntry(e, last)
  }

  predicate Mentions(items: seq<Item>, feeder: nat) {
    exists i :: 0 <= i < |items| && items[i].Entry? && items[i].feederID == feeder
  }

  lemma MentionsAppend(items: seq<Item>, x: Item)
    requires x.Entry?
    ensures forall feeder: nat :: Mentions(items + [x], feeder) <==> Mentions(items, feeder) || feeder == x.feederID
  {
    forall feeder: nat
      ensures Mentions(items + [x], feeder) <==> Mentions(items, feeder) || feeder == x.feederID
    {
      if Mentions(items, feeder) {
        var i :| 0 <= i < |items| && items[i].Entry? && items[i].feederID == feeder;
        assert (items + [x])[i] == items[i];
      }
      assert (items + [x])[|items|] == x;
    }
  }

  /** Every entry can be read, and no feeder's deposit version comes twice. */
  ghost predicate Readable(items: seq<Item>) {
    forall feeder: nat :: EventOf(items, feeder).Some?
  }

  lemma {:induction false} PrefixFails(items: seq<Item>, n: nat, feeder: nat)
    requires n <= |items| && EventOf(items[..n], feeder).None?
    ensures EventOf(items, feeder).None?
    decreases |items|
  {
    if n < |items| {
      assert items[..|items| - 1][..n] == items[..n];
      PrefixFails(items[..|items| - 1], n, feeder);
    } else {
      assert items[..n] == items;
    }
  }

  /** How the seven fields of a staker change read: indexes, versions and amounts as numbers, validators as hex. */
  type FieldReader = seq<string> -> Item

  /** One piece of the event's text: an entry needs seven fields, the first of which calls it a deposit. */
  function ReadItem(piece: string, read: FieldReader): Item {
    var parsed := Split(piece, FIELDS);
    if |parsed| != 7 || parsed[0] != "deposit" then Unreadable else read(parsed)
  }

  function ReadItems(pieces: seq<string>, read: FieldReader): (items: seq<Item>)
    ensures |items| == |pieces| && forall i | 0 <= i < |pieces| :: items[i] == ReadItem(pieces[i], read)
  {
    seq(|pieces|, i requires 0 <= i < |pieces| => ReadItem(pieces[i], read))
  }

  function ItemsOf(text: string, read: FieldReader): seq<Item> {
    ReadItems(Split(text, ITEMS), read)
  }

  /** The texts that are parsed: two entries at least, all of them readable. */
  ghost predicate Accepted(text: string, read: FieldReader) {
    |ItemsOf(text, read)| >= 2 && Readable(ItemsOf(text, read))
  }

  /**
   Groups the entries of a text by feeder. It fails exactly when the text holds a single entry, an
   entry cannot be read, or a feeder's deposit version comes twice; else every feeder mentioned has
   the event of its own entries.
   */
  method ParseStakerEvents(text: string, read: FieldReader) returns (events: Option<map<nat, StakerEvent>>)
    ensures events.Some? <==> Accepted(text, read)
    ensures events.Some? ==> forall feeder: nat :: feeder in events.value <==> Mentions(ItemsOf(text, read), feeder)
    ensures events.Some? ==> forall feeder | feeder in events.value :: EventOf(ItemsOf(text, read), feeder) == Some(events.value[feeder])
  {
    SplitsIffHolds(text, ITEMS);
    if ITEMS !in text {
      return None;
    }
    events := GroupByFeeder(Split(text, ITEMS), read);
  }

  /** `found` has the events of exactly the feeders that the entries mention. */
  ghost predicate Groups(found: map<nat, StakerEvent>, items: seq<Item>) {
    && (forall feeder: nat :: EventOf(items, feeder) == Some(if feeder in found then found[feeder] else NoEvent))
    && (forall feeder: nat :: feeder in found <==> Mentions(items, feeder))
  }

  lemma GroupsOneMore(found: map<nat, StakerEvent>, items: seq<Item>, x: Item, e: StakerEvent)
    requires Groups(found, items) && x.Entry?
    requires AddEntry(if x.feederID in found then found[x.feederID] else NoEvent, x) == Some(e)
    ensures Groups(found[x.feederID := e], items + [x])
  {
    assert (items + [x])[..|items|] == items;
    MentionsAppend(items, x);
  }

  lemma CannotAdd(found: map<nat, StakerEvent>, items: seq<Item>, x: Item)
    requires Groups(found, items)
    requires x.Entry? ==> AddEntry(if x.feederID in found then found[x.feederID] else NoEvent, x).None?
    ensures !Readable(items + [x])
  {
    assert (items + [x])[..|items|] == items;
    assert EventOf(items + [x], if x.Entry? then x.feederID else 0).None?;
  }

  lemma PrefixUnreadable(items: seq<Item>, n: nat)
    requires n <= |items| && !Readable(items[..n])
    ensures !Readable(items)
  {
    var feeder: nat :| EventOf(items[..n], feeder).None?;
    PrefixFails(items, n, feeder);
  }

  /** The loop over the pieces. */
  method GroupByFeeder(pieces: seq<string>, read: FieldReader) returns (events: Option<map<nat, StakerEvent>>)
    ensures events.Some? <==> Readable(ReadItems(pieces, read))
    ensures events.Some? ==> Groups(events.value, ReadItems(pieces, read))
  {
    ghost var items := ReadItems(pieces, read);
    var found: map<nat, StakerEvent> := map[];
    var n := 0;
    while n < |pieces|
      invariant n <= |pieces| && Groups(found, items[..n])
    {
      var x := ReadItem(pieces[n], read);
      assert items[..n + 1] == items[..n] + [x];
      if x.Unreadable? {
        CannotAdd(found, items[..n], x);
        PrefixUnreadable(items, n + 1);
        return None;
      }
      var e := if x.feederID in found then found[x.feederID] else NoEvent;
      var added := AddEntry(e, x);
      if added.None? {
        CannotAdd(found, items[..n], x);
        PrefixUnreadable(items, n + 1);
        return None;
      }
      GroupsOneMore(found, items[..n], x, added.value);
      found := found[x.feederID := added.value];
      n := n + 1;
    }
    assert items[..n] == items;
    events := Some(found);
  }

  /** Entries written with seven plain fields are read back as these; any other number of fields is unreadable. */
  lemma EntryReadBack(fields: seq<string>, read: FieldReader)
    requires |fields| >= 1 && forall x | x in fields :: FIELDS !in x
    ensures ReadItem(Join(fields, FIELDS), read) == if |fields| == 7 && fields[0] == "deposit" then read(fields) else Unreadable
  {
    SplitJoin(fields, FIELDS);
  }

  /** And so are the entries of a text. */
  lemma TextReadBack(pieces: seq<string>, read: FieldReader)
    requires |pieces| >= 1 && forall x | x in pieces :: ITEMS !in x
    ensures |ItemsOf(Join(pieces, ITEMS), read)| == |pieces|
    ensures forall i | 0 <= i < |pieces| :: ItemsOf(Join(pieces, ITEMS), read)[i] == ReadItem(pieces[i], read)
  {
    SplitJoin(pieces, ITEMS);
  }

  /** A block with a single staker change is refused, however readable: its text holds no separator. */
  lemma SingleEntryRefused(text: string, read: FieldReader)
    requires ITEMS !in text
    ensures ItemsOf(text, read) == [ReadItem(text, read)] && !Accepted(text, read)
    ensures ReadItem(text, read).Entry? ==> Readable(ItemsOf(text, read))
  {
    SplitPlain(text, ITEMS);
    assert ItemsOf(text, read)[..0] == [];
  }

  lemma UnreadableFails(items: seq<Item>, i: nat)
    requires i < |items| && items[i].Unreadable?
    ensures !Readable(items)
  {
    assert items[..i + 1][i].Unreadable? && EventOf(items[..i + 1], 0).None?;
    PrefixFails(items, i + 1, 0);
  }

  /** A separator before or behind the entries does not help: the empty piece it leaves cannot be read. */
  lemma EdgeSeparatorRefused(text: string, read: FieldReader)
    ensures !Accepted(Glue("", text, ITEMS), read) && !Accepted(Glue(text, "", ITEMS), read)
  {
    SplitAcross("", text, ITEMS);
    SplitAcross(text, "", ITEMS);
    assert Split("", ITEMS) == [""] && ReadItem("", read) == Unreadable;
    UnreadableFails(ItemsOf(Glue("", text, ITEMS), read), 0);
    UnreadableFails(ItemsOf(Glue(text, "", ITEMS), read), |Split(text, ITEMS)|);
  }

  // ---- Versions -------------------------------------------------------------------------------

  /** The bookkeeping of versions for an event whose deposits all carry a version of at least 1. */
  ghost predicate VersionsTracked(e: StakerEvent) {
    if e.deposits == map[] then e.nextVersion == 0 && e.latestVersion == 0
    else
      && e.nextVersion in e.deposits && e.latestVersion in e.deposits
      && forall v | v in e.deposits :: e.nextVersion <= v <= e.latestVersion
  }

  /** With deposit versions from 1 on, an event's versions are the least and the greatest of its deposits. */
  lemma {:induction false} LeastAndGreatest(items: seq<Item>, feeder: nat)
    requires EventOf(items, feeder).Some?
    requires 0 !in EventOf(items, feeder).value.deposits
    ensures VersionsTracked(EventOf(items, feeder).value)
    decreases |items|
  {
    if items != [] {
      var before := items[..|items| - 1];
      var e := EventOf(before, feeder).value;
      assert e.deposits.Keys <= EventOf(items, feeder).value.deposits.Keys;
      LeastAndGreatest(before, feeder);
    }
  }

  /** The entries' own versions are the event's deposits, each from its own entry. */
  lemma {:induction false} DepositsAreEntries(items: seq<Item>, feeder: nat, v: nat)
    requires EventOf(items, feeder).Some?
    ensures v in EventOf(items, feeder).value.deposits <==>
              exists i :: 0 <= i < |items| && items[i].Entry? && items[i].feederID == feeder && !items[i].isWithdraw && items[i].version == v
    decreases |items|
  {
    if items != [] {
      var before, last := items[..|items| - 1], items[|items| - 1];
      DepositsAreEntries(before, feeder, v);
      if v in EventOf(before, feeder).value.deposits {
        var i :| 0 <= i < |before| && before[i].Entry? && before[i].feederID == feeder && !before[i].isWithdraw && before[i].version == v;
        assert items[i] == before[i];
      }
      if i :| 0 <= i < |items| && items[i].Entry? && items[i].feederID == feeder && !items[i].isWithdraw && items[i].version == v && i < |before| {
        assert before[i] == items[i];
      }
    }
  }

  /** Entry `i` is the feeder's deposit of version `v`. */
  predicate IsDeposit(items: seq<Item>, feeder: nat, v: nat, i: nat) {
    i < |items| && items[i].Entry? && items[i].feederID == feeder && !items[i].isWithdraw && items[i].version == v
  }

  /** Each deposit holds what its entry says: the staker's index and address, the validator and the amount. */
  lemma {:induction false} DepositContents(items: seq<Item>, feeder: nat, v: nat) returns (i: nat)
    requires EventOf(items, feeder).Some? && v in EventOf(items, feeder).value.deposits
    ensures IsDeposit(items, feeder, v, i)
    ensures EventOf(items, feeder).value.deposits[v]
         == Deposit(items[i].stakerIndex, items[i].stakerAddr, items[i].validator, items[i].amount)
    decreases |items|
  {
    var before, last := items[..|items| - 1], items[|items| - 1];
    i := |items| - 1;
    if !(last.feederID == feeder && !last.isWithdraw && last.version == v) {
      i := DepositContents(before, feeder, v);
      assert items[i] == before[i];
    }
  }

  /** And no version has two entries. */
  lemma {:induction false} DepositsAreUnique(items: seq<Item>, feeder: nat, v: nat, i: nat, j: nat)
    requires EventOf(items, feeder).Some? && IsDeposit(items, feeder, v, i) && IsDeposit(items, feeder, v, j)
    ensures i == j
    decreases |items|
  {
    var before, n := items[..|items| - 1], |items| - 1;
    if i < n && j < n {
      DepositsAreUnique(before, feeder, v, i, j);
    } else if i != j {
      DepositsAreEntries(before, feeder, v);
    }
  }

  /** Two deposits of the feeder with one version. */
  predicate Clash(x: Item, y: Item, feeder: nat) {
    x.Entry? && y.Entry? && x.feederID == y.feederID == feeder && !x.isWithdraw && !y.isWithdraw && x.version == y.version
  }

  /** Every entry can be read, and no two deposits of the feeder clash. */
  predicate Clean(items: seq<Item>, feeder: nat) {
    && (forall i | 0 <= i < |items| :: items[i].Entry?)
    && forall i, j | 0 <= i < j < |items| :: !Clash(items[i], items[j], feeder)
  }

  lemma CleanAppend(items: seq<Item>, x: Item, feeder: nat)
    ensures Clean(items + [x], feeder) <==>
              Clean(items, feeder) && x.Entry? && forall i | 0 <= i < |items| :: !Clash(items[i], x, feeder)
  {
    var all := items + [x];
    assert all[|items|] == x && forall i | 0 <= i < |items| :: all[i] == items[i];
  }

  /** A feeder has an event exactly if the entries are clean for it. */
  lemma {:induction false} EventIffClean(items: seq<Item>, feeder: nat)
    ensures EventOf(items, feeder).Some? <==> Clean(items, feeder)
    decreases |items|
  {
    if items != [] {
      var before, last := items[..|items| - 1], items[|items| - 1];
      EventIffClean(before, feeder);
      assert items == before + [last];
      CleanAppend(before, last, feeder);
      if EventOf(before, feeder).Some? && last.Entry? {
        DepositsAreEntries(before, feeder, last.version);
      }
    }
  }

  /** So the entries are readable exactly if none is unreadable and no feeder's deposits clash. */
  lemma ReadableIffClean(items: seq<Item>)
    ensures Readable(items) <==> forall feeder: nat :: Clean(items, feeder)
  {
    forall feeder: nat
      ensures EventOf(items, feeder).Some? <==> Clean(items, feeder)
    {
      EventIffClean(items, feeder);
    }
  }

  /** The staker and the version of each of the feeder's withdraw entries, in order. */
  function WithdrawEntries(items: seq<Item>, feeder: nat): seq<Withdraw> {
    if items == [] then []
    else
      var first := items[0];
      (if first.Entry? && first.feederID == feeder && first.isWithdraw then [Withdraw(first.stakerIndex, first.version)] else [])
      + WithdrawEntries(items[1..], feeder)
  }

  lemma {:induction false} WithdrawEntriesAppend(items: seq<Item>, x: Item, feeder: nat)
    ensures WithdrawEntries(items + [x], feeder) == WithdrawEntries(items, feeder) + WithdrawEntries([x], feeder)
  {
    if items == [] {
      assert [] + [x] == [x];
    } else {
      assert (items + [x])[1..] == items[1..] + [x];
      WithdrawEntriesAppend(items[1..], x, feeder);
    }
  }

  /** The event's withdraws are the feeder's withdraw entries, in order. */
  lemma {:induction false} WithdrawsAreEntries(items: seq<Item>, feeder: nat)
    requires EventOf(items, feeder).Some?
    ensures EventOf(items, feeder).value.withdraws == WithdrawEntries(items, feeder)
    decreases |items|
  {
    if items != [] {
      var before, last := items[..|items| - 1], items[|items| - 1];
      WithdrawsAreEntries(before, feeder);
      assert items == before + [last];
      WithdrawEntriesAppend(before, last, feeder);
      assert [last][1..] == [];
    }
  }

  /** The version of a feeder's last deposit entry. */
  function LastDeposit(items: seq<Item>, feeder: nat): Option<nat> {
    if items == [] then None
    else
      var last := items[|items| - 1];
      if last.Entry? && last.feederID == feeder && !last.isWithdraw then Some(last.version)
      else LastDeposit(items[..|items| - 1], feeder)
  }

  lemma {:induction false} NextIsZero(items: seq<Item>, feeder: nat)
    requires EventOf(items, feeder).Some?
    ensures EventOf(items, feeder).value.nextVersion == 0 <==> LastDeposit(items, feeder) in {None, Some(0)}
    decreases |items|
  {
    if items != [] {
      NextIsZero(items[..|items| - 1], feeder);
    }
  }

  predicate IsLeast(v: nat, p: Pending) {
    v in p && forall w | w in p :: v <= w
  }

  /**
   The next version is the least deposit version for every event, except one in which a deposit of
   version 0 is followed by another: what follows it is taken for the first deposit.
   */
  lemma NextIsLeastUnlessZeroFollowed(items: seq<Item>, feeder: nat)
    requires EventOf(items, feeder).Some? && EventOf(items, feeder).value.deposits != map[]
    ensures var e := EventOf(items, feeder).value;
            IsLeast(e.nextVersion, e.deposits) <==> 0 !in e.deposits || LastDeposit(items, feeder) == Some(0)
  {
    var e := EventOf(items, feeder).value;
    NextIsZero(items, feeder);
    if 0 !in e.deposits {
      LeastAndGreatest(items, feeder);
    } else {
      DepositsAreEntries(items, feeder, 0);
      HasLastDeposit(items, feeder);
    }
  }

  lemma {:induction false} HasLastDeposit(items: seq<Item>, feeder: nat)
    requires EventOf(items, feeder).Some? && EventOf(items, feeder).value.deposits != map[]
    ensures LastDeposit(items, feeder).Some?
    decreases |items|
  {
    var last := items[|items| - 1];
    if !(last.feederID == feeder && !last.isWithdraw) {
      HasLastDeposit(items[..|items| - 1], feeder);
    }
  }

  /** The exception does occur. */
  lemma VersionZeroIsForgotten(d: Item, d': Item)
    requires d.Entry? && d'.Entry? && !d.isWithdraw && !d'.isWithdraw && d.feederID == d'.feederID
    requires d.version == 0 && d'.version == 3
    ensures EventOf([d, d'], d.feederID).Some? && EventOf([d, d'], d.feederID).value.nextVersion == 3
    ensures 0 in EventOf([d, d'], d.feederID).value.deposits
  {
    assert [d, d'][..1] == [d] && [d][..0] == [];
    assert EventOf([d], d.feederID) == AddEntry(NoEvent, d);
  }

  // ---- Into the cache -------------------------------------------------------------------------

  function Hand(s: State, e: StakerEvent): (State, Outcome) {
    Cache(s, e.deposits, e.nextVersion, e.withdraws)
  }

  /**
   An event of deposits alone, with versions from 1 on, is taken into the cache exactly when these
   versions are a gap-free block right after the last version cached or fed.
   */
  lemma DepositEventAccepted(s: State, n: nat, items: seq<Item>, feeder: nat)
    requires Inv(s) && Spans(s.pending, s.version, n)
    requires EventOf(items, feeder).Some?
    requires var e := EventOf(items, feeder).value; e.withdraws == [] && e.deposits != map[] && 0 !in e.deposits
    ensures var e := EventOf(items, feeder).value;
            Hand(s, e).1.Done? <==> forall v: nat :: v in e.deposits <==> s.version + n < v <= s.version + n + |e.deposits|
  {
    var e := EventOf(items, feeder).value;
    LeastAndGreatest(items, feeder);
    CacheAccepts(s, n, e.deposits, e.nextVersion, e.withdraws);
    if forall v: nat :: v in e.deposits <==> s.version + n < v <= s.version + n + |e.deposits| {
      assert |e.deposits| > 0;
      assert s.version + n + 1 in e.deposits;
      assert e.nextVersion == s.version + n + 1;
    }
  }

  /** An event of withdraws alone carries no next version: the cache refuses it and stays as it is. */
  lemma WithdrawsAloneRefused(s: State, items: seq<Item>, feeder: nat)
    requires Inv(s) && EventOf(items, feeder).Some? && EventOf(items, feeder).value.deposits == map[]
    ensures Hand(s, EventOf(items, feeder).value).1.Failed? && Hand(s, EventOf(items, feeder).value).0 == s
  {
    LeastAndGreatest(items, feeder);
  }
}
