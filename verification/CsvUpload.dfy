/**
 Which rows of an uploaded CSV become recipients.
 */
module CsvUpload {
  import opened Wrappers
  import opened Delivery

  /** One parsed row: the columns in order, with None for a missing cell. */
  type Row = seq<(string, Option<string>)>

  /** What Python's strip() takes for white space. */
  predicate IsSpace(c: char) {
    var n := c as int;
    0x09 <= n <= 0x0D || 0x1C <= n <= 0x20 || n == 0x85 || n == 0xA0 || n == 0x1680 || 0x2000 <= n <= 0x200A
    || n == 0x2028 || n == 0x2029 || n == 0x202F || n == 0x205F || n == 0x3000
  }

  function Strip(text: string): string {
    if text == "" then ""
    else if IsSpace(text[0]) then Strip(text[1..])
    else if IsSpace(text[|text| - 1]) then Strip(text[..|text| - 1])
    else text
  }

  function Cell(row: Row, column: string): string {
    if row == [] then ""
    else if row[0].0 == column then (if row[0].1.Some? then row[0].1.value else "")
    else Cell(row[1..], column)
  }

  /** The other columns that hold something, in column order. */
  function Variables(row: Row, phoneColumn: string): seq<(string, string)> {
    if row == [] then []
    else (if row[0].0 != phoneColumn && row[0].1.Some? && row[0].1.value != "" then [(row[0].0, row[0].1.value)]
        else [])
         + Variables(row[1..], phoneColumn)
  }

  /** How phone cells are read: a library call, None where it raises. */
  type Normaliser = string -> Option<string>

  /** What a row offers: its phone, None when the cell is empty or invalid, and its variables. */
  datatype Candidate = Candidate(phone: Option<string>, variables: seq<(string, string)>)

  function ReadRow(row: Row, phoneColumn: string, normalise: Normaliser): Candidate {
    var raw := Strip(Cell(row, phoneColumn));
    Candidate(if raw == "" then None else normalise(raw), Variables(row, phoneColumn))
  }

  function ReadRows(rows: seq<Row>, phoneColumn: string, normalise: Normaliser): (r: seq<Candidate>)
    ensures |r| == |rows| && forall i :: 0 <= i < |r| ==> r[i] == ReadRow(rows[i], phoneColumn, normalise)
  {
    seq(|rows|, i requires 0 <= i < |rows| => ReadRow(rows[i], phoneColumn, normalise))
  }

  /** The row yields a phone that no earlier row yields. */
  predicate IsFirst(cs: seq<Candidate>, i: nat)
    requires i < |cs|
  {
    cs[i].phone.Some? && forall j :: 0 <= j < i ==> cs[j].phone != cs[i].phone
  }

  /** The phones the first n rows yield. */
  function Yielded(cs: seq<Candidate>, n: nat): (r: set<string>)
    requires n <= |cs|
    ensures forall phone :: phone in r <==> exists i :: 0 <= i < n && cs[i].phone == Some(phone)
  {
    if n == 0 then {} else Yielded(cs, n - 1) + if cs[n - 1].phone.Some? then {cs[n - 1].phone.value} else {}
  }

  /** The recipients inserted for the first n rows: one for each row that is the first with its phone. */
  function Addressees(cs: seq<Candidate>, n: nat): seq<Addressee>
    requires n <= |cs|
  {
    if n == 0 then []
    else Addressees(cs, n - 1)
         + if IsFirst(cs, n - 1) then [Addressee(cs[n - 1].phone.value, cs[n - 1].variables)] else []
  }

  datatype Report = Report(parsed: nat, inserted: nat, skipped: nat, reasons: seq<Skip>)

  datatype Skip = EmptyPhone(row: nat) | InvalidPhone(row: nat) | DuplicatePhone(row: nat, phone: string)

  /** Why a row that is not the first with its phone is left out. */
  function SkipReason(row: Row, number: nat, phoneColumn: string, normalise: Normaliser): Skip {
    var raw := Strip(Cell(row, phoneColumn));
    if raw == "" then EmptyPhone(number)
    else match normalise(raw)
      case None => InvalidPhone(number)
      case Some(phone) => DuplicatePhone(number, phone)
  }

  /** The reasons for the rows left out of the first n, in row order, counted from 1. */
  function Skips(rows: seq<Row>, phoneColumn: string, normalise: Normaliser, n: nat): seq<Skip>
    requires n <= |rows|
  {
    if n == 0 then []
    else Skips(rows, phoneColumn, normalise, n - 1)
         + if IsFirst(ReadRows(rows, phoneColumn, normalise), n - 1) then []
           else [SkipReason(rows[n - 1], n, phoneColumn, normalise)]
  }

  const MAX_REASONS: nat := 50

  /** The reasons a response lists. */
  function Capped(reasons: seq<Skip>): seq<Skip> {
    if |reasons| <= MAX_REASONS then reasons else reasons[..MAX_REASONS]
  }

  /** The recipient is what its row offers, and that row is the first with its phone. */
  ghost predicate ComesFrom(cs: seq<Candidate>, a: Addressee, i: nat) {
    i < |cs| && IsFirst(cs, i) && cs[i] == Candidate(Some(a.phone), a.variables)
  }

  /**
   An upload inserts each phone that some row yields exactly once, with the variables of the
   first row that yields it, in the order of those rows.
   */
  lemma {:induction false} UploadDeduplicates(cs: seq<Candidate>, n: nat) returns (origin: seq<nat>)
    requires n <= |cs|
    ensures |origin| == |Addressees(cs, n)|
    ensures forall k :: 0 <= k < |origin| ==> origin[k] < n && ComesFrom(cs, Addressees(cs, n)[k], origin[k])
    ensures forall j, k :: 0 <= j < k < |origin| ==> origin[j] < origin[k]
    ensures forall i :: 0 <= i < n && IsFirst(cs, i) ==> i in origin
  {
    if n == 0 {
      origin := [];
    } else {
      var o := UploadDeduplicates(cs, n - 1);
      if IsFirst(cs, n - 1) {
        origin := o + [n - 1];
        var a := Addressees(cs, n - 1);
        var last := Addressee(cs[n - 1].phone.value, cs[n - 1].variables);
        assert Addressees(cs, n) == a + [last];
        assert ComesFrom(cs, last, n - 1);
        assert forall k :: 0 <= k < |o| ==> (a + [last])[k] == a[k] && origin[k] == o[k];
        assert origin[|o|] == n - 1 && (a + [last])[|o|] == last;
      } else {
        origin := o;
      }
    }
  }

  /** No phone is inserted twice by one upload, and every phone that a row yields is inserted. */
  lemma UploadedPhones(cs: seq<Candidate>)
    ensures var r := Addressees(cs, |cs|);
            && (forall j, k :: 0 <= j < k < |r| ==> r[j].phone != r[k].phone)
            && (forall i :: 0 <= i < |cs| && cs[i].phone.Some? ==>
                  exists k :: 0 <= k < |r| && r[k].phone == cs[i].phone.value)
  {
    var origin := UploadDeduplicates(cs, |cs|);
    var r := Addressees(cs, |cs|);
    forall j, k | 0 <= j < k < |r| ensures r[j].phone != r[k].phone {
      assert ComesFrom(cs, r[j], origin[j]) && ComesFrom(cs, r[k], origin[k]);
    }
    forall i | 0 <= i < |cs| && cs[i].phone.Some? ensures exists k :: 0 <= k < |r| && r[k].phone == cs[i].phone.value {
      var first := FirstWith(cs, i);
      var k :| 0 <= k < |origin| && origin[k] == first;
      assert ComesFrom(cs, r[k], origin[k]);
    }
  }

  lemma {:induction false} FirstWith(cs: seq<Candidate>, i: nat) returns (first: nat)
    requires i < |cs| && cs[i].phone.Some?
    ensures first <= i && IsFirst(cs, first) && cs[first].phone == cs[i].phone
    decreases i
  {
    if IsFirst(cs, i) {
      first := i;
    } else {
      var j :| 0 <= j < i && cs[j].phone == cs[i].phone;
      first := FirstWith(cs, j);
    }
  }

  function LowerChar(c: char): char {
    if 'A' <= c <= 'Z' then (c as int - 'A' as int + 'a' as int) as char else c
  }

  function Lower(s: string): (r: string)
    ensures |r| == |s|
  {
    if s == "" then "" else [LowerChar(s[0])] + Lower(s[1..])
  }

  /** The first column called "phone" in any letter case. */
  function PhoneColumn(header: seq<string>): Option<string> {
    if header == [] then None
    else if Lower(header[0]) == "phone" then Some(header[0])
    else PhoneColumn(header[1..])
  }
}
