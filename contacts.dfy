/** The contact ledger's records and the row-by-row ingestion of contacts.csv (bot.js:29-42). */
module Contacts {
  import opened Wrappers

  /** One entry of contacts.json: the `sent` and `responded` flags only ever go from false to true. */
  datatype Contact = Contact(name: string, number: string, sent: bool, responded: bool)

  /** One parsed row of contacts.csv; a column the row does not have is `None`. */
  datatype Row = Row(name: Option<string>, number: Option<string>)

  /** JavaScript truthiness of an optional string column: present and not empty. */
  predicate Truthy(v: Option<string>) {
    v.Some? && v.value != ""
  }

  /** `if (row.number)`: the rows the ingestion keeps. */
  predicate Accepted(row: Row) {
    Truthy(row.number)
  }

  /** The record pushed for an accepted row: `name || ''`, the number as given, both flags false. */
  function ToContact(row: Row): Contact
    requires Accepted(row)
  {
    Contact(if Truthy(row.name) then row.name.value else "", row.number.value, false, false)
  }

  /** The contact list that row-by-row ingestion produces from `rows`. */
  function Ingest(rows: seq<Row>): (cs: seq<Contact>)
    ensures |cs| <= |rows|
    ensures forall c :: c in cs ==> c.number != "" && !c.sent && !c.responded
  {
    if rows == [] then []
    else
      var last := rows[|rows| - 1];
      Ingest(rows[..|rows| - 1]) + (if Accepted(last) then [ToContact(last)] else [])
  }

  /** Ingestion works row by row: the contacts of two batches of rows are those of each, in order. */
  lemma {:induction false} IngestAppend(a: seq<Row>, b: seq<Row>)
    ensures Ingest(a + b) == Ingest(a) + Ingest(b)
    decreases |b|
  {
    if b == [] {
      assert a + b == a;
    } else {
      var b' := b[..|b| - 1];
      assert (a + b)[..|a + b| - 1] == a + b';
      IngestAppend(a, b');
    }
  }

  /** An accepted row lands right after the contacts of the rows before it and right before those
      of the rows after it; a refused row leaves no trace. */
  lemma {:induction false} IngestSplit(rows: seq<Row>, i: nat)
    requires i < |rows|
    ensures Ingest(rows) == Ingest(rows[..i])
                            + (if Accepted(rows[i]) then [ToContact(rows[i])] else [])
                            + Ingest(rows[i + 1..])
  {
    var before, here, after := rows[..i], [rows[i]], rows[i + 1..];
    assert rows[..i + 1] == before + here;
    assert rows == rows[..i + 1] + after;
    assert Ingest(before + here) == Ingest(before) + Ingest(here) by {
      IngestAppend(before, here);
    }
    IngestAppend(before + here, after);
    assert Ingest(here) == (if Accepted(rows[i]) then [ToContact(rows[i])] else []) by {
      assert here[..0] == [];
    }
  }

  /** The list holds exactly one contact per accepted row: as many as there are such rows. */
  function CountAccepted(rows: seq<Row>): nat {
    if rows == [] then 0 else CountAccepted(rows[..|rows| - 1]) + (if Accepted(rows[|rows| - 1]) then 1 else 0)
  }

  lemma {:induction false} IngestLength(rows: seq<Row>)
    ensures |Ingest(rows)| == CountAccepted(rows)
    decreases |rows|
  {
    if rows != [] {
      IngestLength(rows[..|rows| - 1]);
    }
  }

  /** `loadContactsFromCSV`'s `data` handler, run over the rows in order: push a record per accepted row. */
  method LoadContacts(rows: seq<Row>) returns (cs: seq<Contact>)
    ensures cs == Ingest(rows)
  {
    cs := [];
    var i := 0;
    while i < |rows|
      invariant 0 <= i <= |rows|
      invariant cs == Ingest(rows[..i])
    {
      var row := rows[i];
      if Accepted(row) {
        cs := cs + [ToContact(row)];
      }
      assert rows[..i + 1][..i] == rows[..i];
      i := i + 1;
    }
    assert rows[..i] == rows;
  }
}
