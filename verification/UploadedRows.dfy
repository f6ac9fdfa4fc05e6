/**
 What an upload leaves in the tables, read off the cells of the CSV.
 */
module UploadedRows {
  import opened Wrappers
  import opened Rows
  import opened Delivery
  import opened CsvUpload
  import Agreement

  // ------------------------------------------------------------ cells

  /** A parsed row is a dictionary: a column comes once. */
  predicate UniqueColumns(row: Row) {
    forall i, j :: 0 <= i < j < |row| ==> row[i].0 != row[j].0
  }

  predicate AllUniqueColumns(rows: seq<Row>) {
    forall i :: 0 <= i < |rows| ==> UniqueColumns(rows[i])
  }

  /** White space: the control characters from tab to carriage return and from FS to US, and Unicode's spaces. */
  const WHITE: string :=
    "\t\n\U{0B}\U{0C}\r\U{1C}\U{1D}\U{1E}\U{1F} \U{85}\U{A0}\U{1680}"
    + "\U{2000}\U{2001}\U{2002}\U{2003}\U{2004}\U{2005}\U{2006}\U{2007}\U{2008}\U{2009}\U{200A}"
    + "\U{2028}\U{2029}\U{202F}\U{205F}\U{3000}"

  predicate AllWhite(text: string) {
    forall i :: 0 <= i < |text| ==> text[i] in WHITE
  }

  predicate AllSpace(text: string) {
    forall i :: 0 <= i < |text| ==> IsSpace(text[i])
  }

  /** The text is the core with white space around it, and the core neither begins nor ends with any. */
  ghost predicate Trimmed(text: string, core: string) {
    && (core != "" ==> core[0] !in WHITE && core[|core| - 1] !in WHITE)
    && exists before, after :: AllWhite(before) && AllWhite(after) && text == Around(before, core, after)
  }

  function Around(before: string, core: string, after: string): string { before + core + after }

  /** The cell of a column, "" when the row has none there. */
  ghost predicate HasCell(row: Row, column: string, text: string) {
    if exists i :: 0 <= i < |row| && row[i].0 == column then
      exists i :: 0 <= i < |row| && row[i].0 == column && text == row[i].1.OrElse(Some("")).value
    else text == ""
  }

  /** The row's phone cell is not blank and the phone library reads it as this phone. */
  ghost predicate Yields(row: Row, column: string, normalise: Normaliser, phone: string) {
    exists text, core ::
      HasCell(row, column, text) && Trimmed(text, core) && core != "" && normalise(core) == Some(phone)
  }

  /** The row yields a phone, and no earlier row yields the same. */
  ghost predicate FirstOfPhone(rows: seq<Row>, column: string, normalise: Normaliser, i: nat) {
    i < |rows| && exists phone :: FirstYields(rows, column, normalise, i, phone)
  }

  ghost predicate FirstYields(rows: seq<Row>, column: string, normalise: Normaliser, i: nat, phone: string)
    requires i < |rows|
  {
    && Yields(rows[i], column, normalise, phone)
    && forall j :: 0 <= j < i ==> !Yields(rows[j], column, normalise, phone)
  }

  predicate Kept(row: Row, column: string, i: nat) {
    i < |row| && row[i].0 != column && row[i].1.Some? && row[i].1.value != ""
  }

  /** The variables are the row's cells outside the phone column that are not empty, in column order. */
  ghost predicate CellsOf(variables: seq<(string, string)>, row: Row, column: string, picks: seq<nat>) {
    && |picks| == |variables|
    && (forall a, b :: 0 <= a < b < |picks| ==> picks[a] < picks[b])
    && (forall a :: 0 <= a < |picks| ==>
          Kept(row, column, picks[a]) && variables[a] == (row[picks[a]].0, row[picks[a]].1.value))
    && (forall i: nat :: Kept(row, column, i) ==> i in picks)
  }

  // ------------------------------------------------------------ stripping and looking up

  ghost predicate SpaceTrimmed(text: string, core: string) {
    && (core != "" ==> !IsSpace(core[0]) && !IsSpace(core[|core| - 1]))
    && exists before, after :: AllSpace(before) && AllSpace(after) && text == Around(before, core, after)
  }

  lemma WhiteIsSpace()
    ensures forall c: char :: c in WHITE <==> IsSpace(c)
  {
  }

  lemma AllWhiteIsAllSpace()
    ensures forall text: string :: AllWhite(text) <==> AllSpace(text)
  {
    WhiteIsSpace();
  }

  lemma TrimFront(text: string, core: string)
    requires text != "" && IsSpace(text[0]) && SpaceTrimmed(text[1..], core)
    ensures SpaceTrimmed(text, core)
  {
    var before, after :| AllSpace(before) && AllSpace(after) && text[1..] == Around(before, core, after);
    assert text == [text[0]] + text[1..];
    assert text == Around([text[0]] + before, core, after);
  }

  lemma TrimBack(text: string, core: string)
    requires text != "" && IsSpace(text[|text| - 1]) && SpaceTrimmed(text[..|text| - 1], core)
    ensures SpaceTrimmed(text, core)
  {
    var last := [text[|text| - 1]];
    var before, after :| AllSpace(before) && AllSpace(after) && text[..|text| - 1] == Around(before, core, after);
    assert text == text[..|text| - 1] + last;
    assert text == Around(before, core, after + last);
  }

  lemma {:induction false} StripTrims(text: string)
    ensures SpaceTrimmed(text, Strip(text))
    decreases |text|
  {
    if text == "" {
      assert text == Around("", "", "");
    } else if IsSpace(text[0]) {
      StripTrims(text[1..]);
      TrimFront(text, Strip(text[1..]));
    } else if IsSpace(text[|text| - 1]) {
      StripTrims(text[..|text| - 1]);
      TrimBack(text, Strip(text[..|text| - 1]));
    } else {
      assert text == Around("", text, "");
    }
  }

  lemma {:induction false} TrimmedStrips(before: string, core: string, after: string)
    requires AllSpace(before) && AllSpace(after)
    requires core != "" ==> !IsSpace(core[0]) && !IsSpace(core[|core| - 1])
    ensures Strip(Around(before, core, after)) == core
    decreases |before| + |after|
  {
    var text := Around(before, core, after);
    if before != "" {
      assert text[0] == before[0] && text[1..] == Around(before[1..], core, after);
      TrimmedStrips(before[1..], core, after);
    } else if after != "" {
      var last := after[|after| - 1];
      if core == "" {
        assert text[0] == after[0] && text[1..] == Around(before, core, after[1..]);
        TrimmedStrips(before, core, after[1..]);
      } else {
        assert text[0] == core[0] && text[|text| - 1] == last;
        assert text[..|text| - 1] == Around(before, core, after[..|after| - 1]);
        TrimmedStrips(before, core, after[..|after| - 1]);
      }
    } else {
      assert text == core;
    }
  }

  lemma OnlyStripTrims(text: string, core: string)
    ensures Trimmed(text, core) <==> core == Strip(text)
  {
    WhiteIsSpace();
    AllWhiteIsAllSpace();
    StripTrims(text);
    if Trimmed(text, core) {
      var before, after :| AllWhite(before) && AllWhite(after) && text == Around(before, core, after);
      TrimmedStrips(before, core, after);
    }
  }

  lemma {:induction false} CellIsFound(row: Row, column: string, i: nat)
    requires UniqueColumns(row) && i < |row| && row[i].0 == column
    ensures Cell(row, column) == row[i].1.OrElse(Some("")).value
  {
    if i > 0 {
      assert forall a, b :: 0 <= a < b < |row[1..]| ==> row[1..][a].0 == row[a + 1].0 && row[1..][b].0 == row[b + 1].0;
      CellIsFound(row[1..], column, i - 1);
    }
  }

  lemma {:induction false} CellIsMissing(row: Row, column: string)
    requires forall i :: 0 <= i < |row| ==> row[i].0 != column
    ensures Cell(row, column) == ""
  {
    if row != [] { CellIsMissing(row[1..], column); }
  }

  lemma OnlyCell(row: Row, column: string, text: string)
    requires UniqueColumns(row)
    ensures HasCell(row, column, text) <==> text == Cell(row, column)
  {
    if i :| 0 <= i < |row| && row[i].0 == column {
      CellIsFound(row, column, i);
    } else {
      CellIsMissing(row, column);
    }
  }

  lemma YieldsIsRead(row: Row, column: string, normalise: Normaliser, phone: string)
    requires UniqueColumns(row)
    ensures Yields(row, column, normalise, phone) <==> ReadRow(row, column, normalise).phone == Some(phone)
  {
    var cell := Cell(row, column);
    OnlyCell(row, column, cell);
    OnlyStripTrims(cell, Strip(cell));
    if Yields(row, column, normalise, phone) {
      var text, core :|
        HasCell(row, column, text) && Trimmed(text, core) && core != "" && normalise(core) == Some(phone);
      OnlyCell(row, column, text);
      OnlyStripTrims(text, core);
    }
  }

  /** The positions below n that are flagged, in order. */
  function Chosen(flags: seq<bool>, n: nat): seq<nat>
    requires n <= |flags|
  {
    if n == 0 then [] else Chosen(flags, n - 1) + if flags[n - 1] then [n - 1] else []
  }

  lemma {:induction false} ChosenAre(flags: seq<bool>, n: nat)
    requires n <= |flags|
    ensures forall i: nat :: i in Chosen(flags, n) <==> i < n && flags[i]
    ensures forall a, b :: 0 <= a < b < |Chosen(flags, n)| ==> Chosen(flags, n)[a] < Chosen(flags, n)[b]
  {
    if n > 0 {
      ChosenAre(flags, n - 1);
      var before := Chosen(flags, n - 1);
      assert forall a :: 0 <= a < |before| ==> before[a] in before;
    }
  }

  function KeptFlags(row: Row, column: string): (r: seq<bool>)
    ensures |r| == |row| && forall i :: 0 <= i < |row| ==> r[i] == Kept(row, column, i)
  {
    seq(|row|, i requires 0 <= i < |row| => Kept(row, column, i))
  }

  lemma {:induction false} VariablesConcat(a: Row, b: Row, column: string)
    ensures Variables(a + b, column) == Variables(a, column) + Variables(b, column)
  {
    if a == [] {
      assert a + b == b;
    } else {
      assert (a + b)[0] == a[0] && (a + b)[1..] == a[1..] + b;
      VariablesConcat(a[1..], b, column);
    }
  }

  lemma VariablesStep(row: Row, column: string, n: nat)
    requires n < |row|
    ensures Variables(row[..n + 1], column) ==
            Variables(row[..n], column) + if Kept(row, column, n) then [(row[n].0, row[n].1.value)] else []
  {
    assert row[..n + 1] == row[..n] + [row[n]] && [row[n]][1..] == [];
    VariablesConcat(row[..n], [row[n]], column);
  }

  /** The variables are the cells at the positions. */
  predicate CellsAt(variables: seq<(string, string)>, row: Row, column: string, picks: seq<nat>) {
    |picks| == |variables| && forall a :: 0 <= a < |picks| ==>
      Kept(row, column, picks[a]) && variables[a] == (row[picks[a]].0, row[picks[a]].1.value)
  }

  lemma {:induction false} VariablesAt(row: Row, column: string, n: nat)
    requires n <= |row|
    ensures CellsAt(Variables(row[..n], column), row, column, Chosen(KeptFlags(row, column), n))
  {
    if n > 0 {
      VariablesAt(row, column, n - 1);
      VariablesStep(row, column, n - 1);
    }
  }

  lemma VariablesAreCells(row: Row, column: string) returns (picks: seq<nat>)
    ensures CellsOf(Variables(row, column), row, column, picks)
  {
    picks := Chosen(KeptFlags(row, column), |row|);
    ChosenAre(KeptFlags(row, column), |row|);
    VariablesAt(row, column, |row|);
    assert row[..|row|] == row;
  }

  // ------------------------------------------------------------ the rows of the table

  /** The recipient that an upload creates for a row of the CSV. */
  ghost predicate RowStored(r: Recipient, cid: Id, row: Row, column: string, normalise: Normaliser) {
    && r.campaignId == cid && Yields(row, column, normalise, r.phone)
    && r.status == RecipientStatus.Queued && r.attempts == 0
    && r.waId.None? && r.error.None? && r.attemptedAt.None? && r.completedAt.None?
    && exists picks :: CellsOf(r.variables, row, column, picks)
  }

  /** The new recipients, from the first new id on, are those of the rows listed. */
  ghost predicate AllStored(first: Id, recipients: map<Id, Recipient>, cid: Id, rows: seq<Row>, column: string,
                            normalise: Normaliser, origin: seq<nat>) {
    forall id: Id :: first <= id < first + |origin| ==>
      id in recipients && origin[id - first] < |rows|
      && RowStored(recipients[id], cid, rows[origin[id - first]], column, normalise)
  }

  /** The rows listed are, in order, those that are first with their phone. */
  ghost predicate ListsFirsts(rows: seq<Row>, column: string, normalise: Normaliser, origin: seq<nat>) {
    && (forall a, b :: 0 <= a < b < |origin| ==> origin[a] < origin[b])
    && (forall i: nat :: i in origin <==> FirstOfPhone(rows, column, normalise, i))
  }

  /** New ids are larger than those of the recipients there are. */
  predicate IdsHandedOut(t: Tables) {
    forall id :: id in t.recipients ==> id < t.nextId
  }

  lemma IdsAreHandedOut(t: Tables)
    requires Agreement.Inv(t)
    ensures IdsHandedOut(t)
  {
  }

  /** Only n new recipients came, and the campaign's total grew by their number. */
  ghost predicate OnlyAdds(t: Tables, t': Tables, cid: Id, n: nat)
    requires cid in t.campaigns
  {
    && (forall id :: id in t'.recipients <==> id in t.recipients || t.nextId <= id < t.nextId + n)
    && (forall id :: id in t.recipients ==> id in t'.recipients && t'.recipients[id] == t.recipients[id])
    && t'.nextId == t.nextId + n
    && t'.campaigns == t.campaigns[cid := t.campaigns[cid].(total := t.campaigns[cid].total + n)]
    && t'.tenants == t.tenants && t'.templates == t.templates && t'.messages == t.messages && t'.events == t.events
  }

  /**
   The new recipients correspond one to one, in order, to the rows that are first with their phone, and hold those rows;
   earlier recipients and everything else are as they were, but for the campaign's total.
   */
  ghost predicate RowsStored(t: Tables, t': Tables, cid: Id, rows: seq<Row>, column: string, normalise: Normaliser,
                             origin: seq<nat>)
    requires cid in t.campaigns
  {
    && ListsFirsts(rows, column, normalise, origin)
    && AllStored(t.nextId, t'.recipients, cid, rows, column, normalise, origin)
    && OnlyAdds(t, t', cid, |origin|)
  }

  lemma FirstIsFirst(rows: seq<Row>, column: string, normalise: Normaliser, i: nat)
    requires i < |rows| && AllUniqueColumns(rows)
    ensures FirstOfPhone(rows, column, normalise, i) <==> IsFirst(ReadRows(rows, column, normalise), i)
  {
    var cs := ReadRows(rows, column, normalise);
    forall j: nat, phone | j <= i ensures Yields(rows[j], column, normalise, phone) <==> cs[j].phone == Some(phone) {
      YieldsIsRead(rows[j], column, normalise, phone);
    }
    if IsFirst(cs, i) {
      var phone := cs[i].phone.value;
      assert FirstYields(rows, column, normalise, i, phone);
    }
    if FirstOfPhone(rows, column, normalise, i) {
      var phone :| FirstYields(rows, column, normalise, i, phone);
      assert cs[i].phone == Some(phone);
    }
  }

  /** The row offers this phone and these variables. */
  predicate Offers(row: Row, column: string, normalise: Normaliser, d: Addressee) {
    ReadRow(row, column, normalise) == Candidate(Some(d.phone), d.variables)
  }

  lemma OfferStored(cid: Id, row: Row, column: string, normalise: Normaliser, d: Addressee)
    requires UniqueColumns(row) && Offers(row, column, normalise, d)
    ensures RowStored(QueuedRecipient(cid, d), cid, row, column, normalise)
  {
    YieldsIsRead(row, column, normalise, d.phone);
    var picks := VariablesAreCells(row, column);
    assert CellsOf(d.variables, row, column, picks);
  }

  /** The new recipients, one for each addressee. */
  lemma NewRecipientsAre(first: Id, cid: Id, added: seq<Addressee>)
    ensures var r := NewRecipients(first, cid, added);
            && (forall id: Id :: id in r <==> first <= id < first + |added|)
            && (forall id: Id :: id in r ==> r[id] == QueuedRecipient(cid, added[id - first]))
  {
  }

  ghost predicate AllQueued(first: Id, recipients: map<Id, Recipient>, cid: Id, added: seq<Addressee>) {
    forall id: Id :: first <= id < first + |added| ==>
      id in recipients && recipients[id] == QueuedRecipient(cid, added[id - first])
  }

  lemma UploadAdds(t: Tables, cid: Id, added: seq<Addressee>)
    requires cid in t.campaigns && AcceptsUploads(t.campaigns[cid]) && IdsHandedOut(t)
    ensures OnlyAdds(t, Upload(t, cid, added), cid, |added|)
    ensures AllQueued(t.nextId, Upload(t, cid, added).recipients, cid, added)
  {
    NewRecipientsAre(t.nextId, cid, added);
  }

  lemma OriginIsFirst(rows: seq<Row>, column: string, normalise: Normaliser, origin: seq<nat>)
    requires AllUniqueColumns(rows)
    requires forall a :: 0 <= a < |origin| ==>
               origin[a] < |rows| && IsFirst(ReadRows(rows, column, normalise), origin[a])
    requires forall i :: 0 <= i < |rows| && IsFirst(ReadRows(rows, column, normalise), i) ==> i in origin
    ensures forall i: nat :: i in origin <==> FirstOfPhone(rows, column, normalise, i)
  {
    forall i: nat ensures i in origin <==> FirstOfPhone(rows, column, normalise, i) {
      if i < |rows| { FirstIsFirst(rows, column, normalise, i); }
    }
  }

  /** The rows that an upload leaves in the tables. */
  lemma UploadStores(t: Tables, cid: Id, rows: seq<Row>, column: string, normalise: Normaliser)
    returns (origin: seq<nat>)
    requires cid in t.campaigns && AcceptsUploads(t.campaigns[cid])
    requires IdsHandedOut(t) && AllUniqueColumns(rows)
    ensures var added := Addressees(ReadRows(rows, column, normalise), |rows|);
            |origin| == |added| && RowsStored(t, Upload(t, cid, added), cid, rows, column, normalise, origin)
  {
    origin := OriginOf(rows, column, normalise);
    AddedStored(t, cid, Addressees(ReadRows(rows, column, normalise), |rows|), rows, column, normalise, origin);
  }

  lemma AddedStored(t: Tables, cid: Id, added: seq<Addressee>, rows: seq<Row>, column: string, normalise: Normaliser,
                    origin: seq<nat>)
    requires cid in t.campaigns && AcceptsUploads(t.campaigns[cid]) && IdsHandedOut(t)
    requires AllUniqueColumns(rows)
    requires ListsFirsts(rows, column, normalise, origin)
    requires AllOffered(rows, column, normalise, added, origin)
    ensures RowsStored(t, Upload(t, cid, added), cid, rows, column, normalise, origin)
  {
    UploadAdds(t, cid, added);
    NewRowsStored(t.nextId, Upload(t, cid, added).recipients, cid, added, rows, column, normalise, origin);
  }

  /** The rows behind the addressees. */
  lemma OriginOf(rows: seq<Row>, column: string, normalise: Normaliser) returns (origin: seq<nat>)
    requires AllUniqueColumns(rows)
    ensures ListsFirsts(rows, column, normalise, origin)
    ensures AllOffered(rows, column, normalise, Addressees(ReadRows(rows, column, normalise), |rows|), origin)
  {
    var cs := ReadRows(rows, column, normalise);
    origin := UploadDeduplicates(cs, |rows|);
    forall a | 0 <= a < |origin|
      ensures IsFirst(cs, origin[a]) && Offers(rows[origin[a]], column, normalise, Addressees(cs, |rows|)[a])
    {
      assert ComesFrom(cs, Addressees(cs, |rows|)[a], origin[a]);
    }
    OriginIsFirst(rows, column, normalise, origin);
  }

  predicate AllOffered(rows: seq<Row>, column: string, normalise: Normaliser, added: seq<Addressee>,
                       origin: seq<nat>) {
    |origin| == |added| && forall a :: 0 <= a < |origin| ==>
      origin[a] < |rows| && Offers(rows[origin[a]], column, normalise, added[a])
  }

  lemma NewRowStored(first: Id, recipients: map<Id, Recipient>, cid: Id, added: seq<Addressee>,
                     rows: seq<Row>, column: string, normalise: Normaliser, origin: seq<nat>, id: Id)
    requires AllUniqueColumns(rows) && AllOffered(rows, column, normalise, added, origin)
    requires AllQueued(first, recipients, cid, added) && first <= id < first + |origin|
    ensures id in recipients && origin[id - first] < |rows|
    ensures RowStored(recipients[id], cid, rows[origin[id - first]], column, normalise)
  {
    OfferStored(cid, rows[origin[id - first]], column, normalise, added[id - first]);
  }

  lemma NewRowsStored(first: Id, recipients: map<Id, Recipient>, cid: Id, added: seq<Addressee>,
                      rows: seq<Row>, column: string, normalise: Normaliser, origin: seq<nat>)
    requires AllUniqueColumns(rows) && AllOffered(rows, column, normalise, added, origin)
    requires AllQueued(first, recipients, cid, added)
    ensures AllStored(first, recipients, cid, rows, column, normalise, origin)
  {
    forall id: Id | first <= id < first + |origin|
      ensures id in recipients && origin[id - first] < |rows|
      ensures RowStored(recipients[id], cid, rows[origin[id - first]], column, normalise)
    {
      NewRowStored(first, recipients, cid, added, rows, column, normalise, origin, id);
    }
  }

  // ------------------------------------------------------------ the rows left out

  ghost predicate ReasonRead(row: Row, number: nat, column: string, normalise: Normaliser, reason: Skip) {
    match reason
    case EmptyPhone(n) => n == number && exists text :: HasCell(row, column, text) && Trimmed(text, "")
    case InvalidPhone(n) =>
      n == number && exists text, core ::
        HasCell(row, column, text) && Trimmed(text, core) && core != "" && normalise(core).None?
    case DuplicatePhone(n, phone) => n == number && Yields(row, column, normalise, phone)
  }

  /** The rows listed are, in order, those that are not first with a phone. */
  ghost predicate ListsOthers(rows: seq<Row>, column: string, normalise: Normaliser, skipped: seq<nat>) {
    && (forall a, b :: 0 <= a < b < |skipped| ==> skipped[a] < skipped[b])
    && (forall i: nat :: i in skipped <==> i < |rows| && !FirstOfPhone(rows, column, normalise, i))
  }

  /** Each reason is read off the row it numbers, counted from 1. */
  ghost predicate ReasonsRead(rows: seq<Row>, column: string, normalise: Normaliser, skipped: seq<nat>,
                              reasons: seq<Skip>) {
    |reasons| <= |skipped| && forall a :: 0 <= a < |reasons| ==>
      skipped[a] < |rows| && ReasonRead(rows[skipped[a]], skipped[a] + 1, column, normalise, reasons[a])
  }

  lemma SkipReasonIsRead(row: Row, number: nat, column: string, normalise: Normaliser)
    requires UniqueColumns(row)
    ensures ReasonRead(row, number, column, normalise, SkipReason(row, number, column, normalise))
  {
    var cell := Cell(row, column);
    OnlyCell(row, column, cell);
    OnlyStripTrims(cell, Strip(cell));
  }

  function OtherFlags(cs: seq<Candidate>): (r: seq<bool>)
    ensures |r| == |cs| && forall i :: 0 <= i < |cs| ==> r[i] == !IsFirst(cs, i)
  {
    seq(|cs|, i requires 0 <= i < |cs| => !IsFirst(cs, i))
  }

  /** The reason each row would be given. */
  function ReasonsOf(rows: seq<Row>, column: string, normalise: Normaliser): (r: seq<Skip>)
    ensures |r| == |rows| && forall i :: 0 <= i < |rows| ==> r[i] == SkipReason(rows[i], i + 1, column, normalise)
  {
    seq(|rows|, i requires 0 <= i < |rows| => SkipReason(rows[i], i + 1, column, normalise))
  }

  /** The items below n that are flagged, in order. */
  function Picked<T>(flags: seq<bool>, items: seq<T>, n: nat): seq<T>
    requires n <= |flags| == |items|
  {
    if n == 0 then [] else Picked(flags, items, n - 1) + if flags[n - 1] then [items[n - 1]] else []
  }

  lemma {:induction false} PickedAt<T>(flags: seq<bool>, items: seq<T>, n: nat)
    requires n <= |flags| == |items|
    ensures |Picked(flags, items, n)| == |Chosen(flags, n)|
    ensures forall a :: 0 <= a < |Chosen(flags, n)| ==>
              Chosen(flags, n)[a] < n && Picked(flags, items, n)[a] == items[Chosen(flags, n)[a]]
  {
    if n > 0 { PickedAt(flags, items, n - 1); }
  }

  lemma SkipsStep(rows: seq<Row>, column: string, normalise: Normaliser, flags: seq<bool>, reasons: seq<Skip>, n: nat)
    requires 0 < n <= |rows| && flags == OtherFlags(ReadRows(rows, column, normalise))
    requires reasons == ReasonsOf(rows, column, normalise)
    requires Skips(rows, column, normalise, n - 1) == Picked(flags, reasons, n - 1)
    ensures Skips(rows, column, normalise, n) == Picked(flags, reasons, n)
  {
    assert reasons[n - 1] == SkipReason(rows[n - 1], n, column, normalise);
  }

  lemma {:induction false} SkipsArePicked(rows: seq<Row>, column: string, normalise: Normaliser, n: nat)
    requires n <= |rows|
    ensures Skips(rows, column, normalise, n)
         == Picked(OtherFlags(ReadRows(rows, column, normalise)), ReasonsOf(rows, column, normalise), n)
    decreases n
  {
    if n > 0 {
      SkipsArePicked(rows, column, normalise, n - 1);
      SkipsStep(rows, column, normalise, OtherFlags(ReadRows(rows, column, normalise)),
                ReasonsOf(rows, column, normalise), n);
    }
  }

  lemma PickedAreRead(rows: seq<Row>, column: string, normalise: Normaliser, flags: seq<bool>, reasons: seq<Skip>)
    requires |flags| == |rows| && AllUniqueColumns(rows) && reasons == ReasonsOf(rows, column, normalise)
    ensures ReasonsRead(rows, column, normalise, Chosen(flags, |rows|), Picked(flags, reasons, |rows|))
  {
    var skipped, picked := Chosen(flags, |rows|), Picked(flags, reasons, |rows|);
    PickedAt(flags, reasons, |rows|);
    forall a | 0 <= a < |skipped| ensures ReasonRead(rows[skipped[a]], skipped[a] + 1, column, normalise, picked[a]) {
      SkipReasonIsRead(rows[skipped[a]], skipped[a] + 1, column, normalise);
    }
  }

  /** The reasons of an upload are, in order, those of the rows that are not first with a phone. */
  lemma SkipsAreRead(rows: seq<Row>, column: string, normalise: Normaliser) returns (skipped: seq<nat>)
    requires AllUniqueColumns(rows)
    ensures var reasons := Skips(rows, column, normalise, |rows|);
            && |skipped| == |reasons|
            && ListsOthers(rows, column, normalise, skipped) && ReasonsRead(rows, column, normalise, skipped, reasons)
  {
    var flags := OtherFlags(ReadRows(rows, column, normalise));
    var reasons := ReasonsOf(rows, column, normalise);
    skipped := Chosen(flags, |rows|);
    SkipsArePicked(rows, column, normalise, |rows|);
    PickedAreRead(rows, column, normalise, flags, reasons);
    PickedAt(flags, reasons, |rows|);
    OthersAreListed(rows, column, normalise, flags);
  }

  lemma OthersAreListed(rows: seq<Row>, column: string, normalise: Normaliser, flags: seq<bool>)
    requires AllUniqueColumns(rows) && flags == OtherFlags(ReadRows(rows, column, normalise))
    ensures ListsOthers(rows, column, normalise, Chosen(flags, |rows|))
  {
    ChosenAre(flags, |rows|);
    forall i: nat | i < |rows| ensures FirstOfPhone(rows, column, normalise, i) <==> !flags[i] {
      FirstIsFirst(rows, column, normalise, i);
    }
  }

  // ------------------------------------------------------------ the rest of the request

  /** "phone" in any letter case. */
  predicate CalledPhone(column: string) {
    && |column| == 5
    && column[0] in "pP" && column[1] in "hH" && column[2] in "oO" && column[3] in "nN" && column[4] in "eE"
  }

  lemma LowerMeans(c: char)
    ensures (LowerChar(c) == 'p' <==> c in "pP") && (LowerChar(c) == 'h' <==> c in "hH")
    ensures (LowerChar(c) == 'o' <==> c in "oO") && (LowerChar(c) == 'n' <==> c in "nN")
    ensures LowerChar(c) == 'e' <==> c in "eE"
  {
  }

  lemma {:induction false} LowerAt(text: string, i: nat)
    requires i < |text|
    ensures Lower(text)[i] == LowerChar(text[i])
  {
    if i > 0 { LowerAt(text[1..], i - 1); }
  }

  lemma CalledPhoneIsLower(column: string)
    ensures CalledPhone(column) <==> Lower(column) == "phone"
  {
    if |column| == 5 {
      forall i: nat | i < 5 ensures Lower(column)[i] == LowerChar(column[i]) {
        LowerAt(column, i);
        LowerMeans(column[i]);
      }
      LowerMeans(column[0]);
      LowerMeans(column[1]);
      LowerMeans(column[2]);
      LowerMeans(column[3]);
      LowerMeans(column[4]);
      var word := Lower(column);
      assert word == [word[0], word[1], word[2], word[3], word[4]];
    }
  }

  /** The column is the first that is called "phone" in any letter case. */
  predicate FirstCalledPhone(header: seq<string>, column: string) {
    exists i: nat :: i < |header| && header[i] == column && CalledPhone(column) && NoneCalledPhone(header[..i])
  }

  predicate NoneCalledPhone(header: seq<string>) {
    forall i :: 0 <= i < |header| ==> !CalledPhone(header[i])
  }

  lemma {:induction false} PhoneColumnIsFirst(header: seq<string>)
    ensures PhoneColumn(header).Some? <==> exists i :: 0 <= i < |header| && CalledPhone(header[i])
    ensures PhoneColumn(header).Some? ==> FirstCalledPhone(header, PhoneColumn(header).value)
  {
    if header != [] {
      CalledPhoneIsLower(header[0]);
      if CalledPhone(header[0]) {
        assert NoneCalledPhone(header[..0]);
      } else {
        PhoneColumnIsFirst(header[1..]);
        if i :| 0 <= i < |header| && CalledPhone(header[i]) { assert header[i] == header[1..][i - 1]; }
        if PhoneColumn(header).Some? { OneColumnLater(header, PhoneColumn(header).value); }
      }
    }
  }

  lemma OneColumnLater(header: seq<string>, column: string)
    requires header != [] && !CalledPhone(header[0]) && FirstCalledPhone(header[1..], column)
    ensures FirstCalledPhone(header, column)
  {
    var i: nat :| i < |header[1..]| && header[1..][i] == column && CalledPhone(column)
                  && NoneCalledPhone(header[1..][..i]);
    assert header[i + 1] == column;
    var before := header[..i + 1];
    forall j | 0 <= j < |before| ensures !CalledPhone(before[j]) {
      assert j > 0 ==> before[j] == header[1..][..i][j - 1];
    }
  }

  /**
   What a returned upload leaves and reports: the rows that are first with their phone are stored, the others are
   accounted for, and the response lists the reasons of the first fifty.
   */
  ghost predicate Uploaded(t: Tables, t': Tables, cid: Id, header: seq<string>, rows: seq<Row>, normalise: Normaliser,
                           report: Report)
    requires cid in t.campaigns
  {
    exists column, origin, skipped ::
      UploadedFrom(t, t', cid, header, rows, normalise, report, column, origin, skipped)
  }

  ghost predicate UploadedFrom(t: Tables, t': Tables, cid: Id, header: seq<string>, rows: seq<Row>,
                               normalise: Normaliser, report: Report, column: string, origin: seq<nat>,
                               skipped: seq<nat>)
    requires cid in t.campaigns
  {
    && FirstCalledPhone(header, column)
    && RowsStored(t, t', cid, rows, column, normalise, origin)
    && ListsOthers(rows, column, normalise, skipped)
    && ReasonsRead(rows, column, normalise, skipped, report.reasons)
    && Counts(report, |rows|, |origin|, |skipped|)
  }

  predicate Counts(report: Report, parsed: nat, inserted: nat, skipped: nat) {
    && report.parsed == parsed && report.inserted == inserted && report.skipped == skipped
    && |report.reasons| == if skipped < 50 then skipped else 50
  }

  /** The report of an upload. */
  function ReportOf(rows: seq<Row>, column: string, normalise: Normaliser): Report {
    var skips := Skips(rows, column, normalise, |rows|);
    Report(|rows|, |Addressees(ReadRows(rows, column, normalise), |rows|)|, |skips|, Capped(skips))
  }

  lemma ReportIsRead(rows: seq<Row>, column: string, normalise: Normaliser, origin: seq<nat>)
    returns (skipped: seq<nat>)
    requires AllUniqueColumns(rows) && |origin| == |Addressees(ReadRows(rows, column, normalise), |rows|)|
    ensures var report := ReportOf(rows, column, normalise);
            && ListsOthers(rows, column, normalise, skipped)
            && ReasonsRead(rows, column, normalise, skipped, report.reasons)
            && Counts(report, |rows|, |origin|, |skipped|)
  {
    skipped := SkipsAreRead(rows, column, normalise);
  }

  lemma UploadIsRead(t: Tables, cid: Id, header: seq<string>, rows: seq<Row>, normalise: Normaliser)
    requires cid in t.campaigns && AcceptsUploads(t.campaigns[cid]) && PhoneColumn(header).Some?
    requires IdsHandedOut(t) && AllUniqueColumns(rows)
    ensures var column := PhoneColumn(header).value;
            Uploaded(t, Upload(t, cid, Addressees(ReadRows(rows, column, normalise), |rows|)), cid, header, rows,
                     normalise, ReportOf(rows, column, normalise))
  {
    var column := PhoneColumn(header).value;
    PhoneColumnIsFirst(header);
    var origin := UploadStores(t, cid, rows, column, normalise);
    ColumnIsRead(t, Upload(t, cid, Addressees(ReadRows(rows, column, normalise), |rows|)), cid, header, rows, normalise,
                 column, origin);
  }

  lemma ColumnIsRead(t: Tables, t': Tables, cid: Id, header: seq<string>, rows: seq<Row>, normalise: Normaliser,
                     column: string, origin: seq<nat>)
    requires cid in t.campaigns && FirstCalledPhone(header, column) && AllUniqueColumns(rows)
    requires RowsStored(t, t', cid, rows, column, normalise, origin)
    requires |origin| == |Addressees(ReadRows(rows, column, normalise), |rows|)|
    ensures Uploaded(t, t', cid, header, rows, normalise, ReportOf(rows, column, normalise))
  {
    var skipped := ReportIsRead(rows, column, normalise, origin);
    var report := ReportOf(rows, column, normalise);
    assert UploadedFrom(t, t', cid, header, rows, normalise, report, column, origin, skipped);
  }
}
