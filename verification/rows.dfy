/** Captured rows, the per-key stored record, and the state key built from a row. */
module Rows {
  import opened Wrappers

  /** One row of the report table, as the scraper hands it over. The text
      dimensions are raw cell text (a record may lack one); the metrics are
      already parsed. `cost` is in integer cents: the scraper rounds it to two
      decimals. */
  datatype Row = Row(
    campaign: Option<string>,
    subId6: Option<string>,
    subId5: Option<string>,
    subId4: Option<string>,
    clicks: int,
    leads: int,
    sales: int,
    cost: int)

  /** What is kept between runs for one key: `{cost, leads, sales}`. */
  datatype Stored = Stored(cost: int, leads: int, sales: int)

  /** The persisted state: state key to stored record. */
  type State = map<string, Stored>

  /** A dimension as read with `r.get(name, '')`: a missing field reads as "". */
  function FieldText(f: Option<string>): string {
    f.GetOr("")
  }

  const KeySeparator: char := '|'

  /** The state key `campaign|sub_id_5|sub_id_4`, on the raw (unstripped) fields. */
  function KeyForState(r: Row): string {
    FieldText(r.campaign) + [KeySeparator] + FieldText(r.subId5) + [KeySeparator] + FieldText(r.subId4)
  }

  /** The stored record a row leaves behind. */
  function StoredOf(r: Row): Stored {
    Stored(r.cost, r.leads, r.sales)
  }

  /** Every state key some row produces. */
  function KeysOf(rows: seq<Row>): (ks: set<string>)
    ensures forall i :: 0 <= i < |rows| ==> KeyForState(rows[i]) in ks
    decreases |rows|
  {
    if rows == [] then {}
    else
      var init := rows[..|rows| - 1];
      assert forall i :: 0 <= i < |init| ==> rows[i] == init[i];
      KeysOf(init) + {KeyForState(rows[|rows| - 1])}
  }

  /** Row `n` is the last one producing its key. */
  predicate LastWithKey(rows: seq<Row>, n: int) {
    && 0 <= n < |rows|
    && forall m :: n < m < |rows| ==> KeyForState(rows[m]) != KeyForState(rows[n])
  }

  /** Writes each row's record under its key, in row order, over `base`. */
  function Overwrite(base: State, rows: seq<Row>): (st: State)
    ensures st.Keys == base.Keys + KeysOf(rows)
    decreases |rows|
  {
    if rows == [] then base
    else
      Overwrite(base, rows[..|rows| - 1])[KeyForState(rows[|rows| - 1]) := StoredOf(rows[|rows| - 1])]
  }

  /** A key no row produces keeps its old record. */
  lemma {:induction false} OverwriteKeeps(base: State, rows: seq<Row>, k: string)
    requires k in base && k !in KeysOf(rows)
    ensures Overwrite(base, rows)[k] == base[k]
    decreases |rows|
  {
    if rows != [] {
      var init := rows[..|rows| - 1];
      OverwriteKeeps(base, init, k);
    }
  }

  /** The last row producing a key decides that key's record. */
  lemma {:induction false} OverwriteLastWins(base: State, rows: seq<Row>, n: int)
    requires LastWithKey(rows, n)
    ensures Overwrite(base, rows)[KeyForState(rows[n])] == StoredOf(rows[n])
    decreases |rows|
  {
    var last := |rows| - 1;
    var init := rows[..last];
    if n < last {
      var k := KeyForState(rows[n]);
      assert init[n] == rows[n];
      assert LastWithKey(init, n) by {
        forall m | n < m < |init| ensures KeyForState(init[m]) != k {
          assert init[m] == rows[m];
        }
      }
      OverwriteLastWins(base, init, n);
      assert KeyForState(rows[last]) != k;
    }
  }

  /** Last write wins: a key no row produces keeps its old record, and a key
      some rows produce holds the record of the last of them. */
  lemma OverwriteValues(base: State, rows: seq<Row>)
    ensures forall k :: k in base && k !in KeysOf(rows) ==> Overwrite(base, rows)[k] == base[k]
    ensures forall n :: LastWithKey(rows, n) ==> Overwrite(base, rows)[KeyForState(rows[n])] == StoredOf(rows[n])
  {
    forall k | k in base && k !in KeysOf(rows)
      ensures Overwrite(base, rows)[k] == base[k]
    {
      OverwriteKeeps(base, rows, k);
    }
    forall n | LastWithKey(rows, n)
      ensures Overwrite(base, rows)[KeyForState(rows[n])] == StoredOf(rows[n])
    {
      OverwriteLastWins(base, rows, n);
    }
  }

  /** Joins parts with a separator, as Python's `sep.join(parts)`. */
  function Join(parts: seq<string>, sep: char): string
    requires |parts| > 0
  {
    if |parts| == 1 then parts[0] else parts[0] + [sep] + Join(parts[1..], sep)
  }

  /** Python's `s.split(sep)` for a one-character separator: the pieces
      between separators, which joined back give `s`. */
  function Split(s: string, sep: char): (parts: seq<string>)
    ensures |parts| > 0
    ensures forall i :: 0 <= i < |parts| ==> sep !in parts[i]
    ensures Join(parts, sep) == s
  {
    if |s| == 0 then [""]
    else
      var rest := Split(s[1..], sep);
      if s[0] == sep then
        assert [s[0]] + s[1..] == s;
        [""] + rest
      else
        var head := [s[0]] + rest[0];
        assert Join([head] + rest[1..], sep) == s by {
          if |rest| > 1 {
            assert rest == [rest[0]] + rest[1..];
            assert Join(rest, sep) == rest[0] + [sep] + Join(rest[1..], sep);
          }
        }
        [head] + rest[1..]
  }

  lemma {:induction false} SplitWithout(a: string, sep: char)
    requires sep !in a
    ensures Split(a, sep) == [a]
    decreases |a|
  {
    if |a| > 0 {
      SplitWithout(a[1..], sep);
      assert [a[0]] + a[1..] == a;
    }
  }

  lemma {:induction false} SplitAfter(a: string, sep: char, b: string)
    requires sep !in a
    ensures Split(a + [sep] + b, sep) == [a] + Split(b, sep)
    decreases |a|
  {
    var s := a + [sep] + b;
    if |a| == 0 {
      assert s[1..] == b;
    } else {
      assert s[1..] == a[1..] + [sep] + b;
      SplitAfter(a[1..], sep, b);
      assert [a[0]] + a[1..] == a;
    }
  }

  /** Splitting undoes joining when no part holds the separator. */
  lemma {:induction false} SplitJoin(parts: seq<string>, sep: char)
    requires |parts| > 0
    requires forall i :: 0 <= i < |parts| ==> sep !in parts[i]
    ensures Split(Join(parts, sep), sep) == parts
    decreases |parts|
  {
    if |parts| == 1 {
      SplitWithout(parts[0], sep);
    } else {
      SplitJoin(parts[1..], sep);
      SplitAfter(parts[0], sep, Join(parts[1..], sep));
      assert parts == [parts[0]] + parts[1..];
    }
  }

  /** The key is the three key fields, missing ones as "", joined with '|':
      when no field holds '|', splitting the key gives them back. */
  lemma KeyRoundTrip(r: Row)
    requires KeySeparator !in FieldText(r.campaign)
    requires KeySeparator !in FieldText(r.subId5)
    requires KeySeparator !in FieldText(r.subId4)
    ensures Split(KeyForState(r), KeySeparator) == [FieldText(r.campaign), FieldText(r.subId5), FieldText(r.subId4)]
  {
    var parts := [FieldText(r.campaign), FieldText(r.subId5), FieldText(r.subId4)];
    assert Join(parts[2..], KeySeparator) == FieldText(r.subId4);
    assert Join(parts[1..], KeySeparator) == FieldText(r.subId5) + [KeySeparator] + FieldText(r.subId4);
    assert Join(parts, KeySeparator) == KeyForState(r);
    SplitJoin(parts, KeySeparator);
  }

  /** Two rows share a key exactly when their three key fields agree, as long
      as no field holds '|'. `subId6`, `clicks` and the metrics play no part. */
  lemma KeyIdentity(r1: Row, r2: Row)
    requires KeySeparator !in FieldText(r1.campaign) && KeySeparator !in FieldText(r2.campaign)
    requires KeySeparator !in FieldText(r1.subId5) && KeySeparator !in FieldText(r2.subId5)
    requires KeySeparator !in FieldText(r1.subId4) && KeySeparator !in FieldText(r2.subId4)
    ensures KeyForState(r1) == KeyForState(r2) <==>
              && FieldText(r1.campaign) == FieldText(r2.campaign)
              && FieldText(r1.subId5) == FieldText(r2.subId5)
              && FieldText(r1.subId4) == FieldText(r2.subId4)
  {
    KeyRoundTrip(r1);
    KeyRoundTrip(r2);
  }

  /** A field the record lacks gives the same key as an empty one, and the
      fields outside the key never change it. */
  lemma KeyIgnoresOtherFields(r: Row, sub6: Option<string>, clicks: int, leads: int, sales: int, cost: int)
    ensures KeyForState(r.(campaign := None)) == KeyForState(r.(campaign := Some("")))
    ensures KeyForState(r.(subId5 := None)) == KeyForState(r.(subId5 := Some("")))
    ensures KeyForState(r.(subId4 := None)) == KeyForState(r.(subId4 := Some("")))
    ensures KeyForState(r) == KeyForState(r.(subId6 := sub6, clicks := clicks, leads := leads, sales := sales, cost := cost))
  {
  }

  /** Without the '|' restriction the key is not injective: a campaign
      holding '|' can collide with a different split of the same text. */
  lemma KeyCollision()
    ensures KeyForState(Row(Some("a|b"), None, Some("c"), Some(""), 0, 0, 0, 0))
         == KeyForState(Row(Some("a"), None, Some("b|c"), Some(""), 0, 0, 0, 0))
  {
  }
}
