/**
 * The flood-damage import job (backend/importFloodData.js): forward-geocode
 * every row of the municipal table through Naver and reload the collection
 * with the rows that could be placed.
 */
module FloodImport {
  import opened Wrappers
  import opened FloodDamageModel

  /** One hit of Naver's forward geocoder: `x` is the longitude and `y` the latitude, as text. */
  datatype NaverAddress = NaverAddress(x: string, y: string)

  /** The body of a geocoding reply; `addresses` may be missing. */
  datatype GeocodeReply = GeocodeReply(addresses: Option<seq<NaverAddress>>)

  datatype Location = Location(latitude: real, longitude: real)

  /**
   * `getNaverGeocode`: the first hit, with `x` read as the longitude and `y`
   * as the latitude; a failed request (`None`) or a missing or empty hit
   * list gives `None`.
   */
  function GetNaverGeocode(reply: Option<GeocodeReply>, parseFloat: string -> real): (r: Option<Location>)
    ensures r.Some? <==> reply.Some? && reply.value.addresses.Some? && |reply.value.addresses.value| > 0
    ensures r.Some? ==>
              var first := reply.value.addresses.value[0];
              r.value.longitude == parseFloat(first.x) && r.value.latitude == parseFloat(first.y)
  {
    match reply
    case None => None
    case Some(body) =>
      match body.addresses
      case None => None
      case Some(hits) =>
        if |hits| > 0 then Some(Location(parseFloat(hits[0].y), parseFloat(hits[0].x))) else None
  }

  /** One entry of the source table: `연번`, `주소` and `피해발생일자`. */
  datatype Row = Row(sequence: int, address: string, damageDate: string)

  function Record(row: Row, loc: Location, now: int): FloodDamage {
    FloodDamage(row.sequence, row.address, row.damageDate, loc.latitude, loc.longitude, now)
  }

  /**
   * One turn of the loop: a row that cannot be geocoded is skipped, and a
   * save that throws is caught; either way the collection is left as it was.
   */
  function ImportRow(store: seq<FloodDamage>, row: Row, geocoder: string -> Option<GeocodeReply>,
                     parseFloat: string -> real, now: int): (r: seq<FloodDamage>)
    ensures GetNaverGeocode(geocoder(row.address), parseFloat).None? ==> r == store
    ensures r == store || (exists loc: Location :: r == store + [Record(row, loc, now)])
    ensures UniqueSequences(store) ==> UniqueSequences(r)
  {
    match GetNaverGeocode(geocoder(row.address), parseFloat)
    case None => store
    case Some(loc) =>
      var doc := NewFloodDamage(row.sequence, row.address, row.damageDate, loc.latitude, loc.longitude, now);
      match SaveNew(store, doc, now)
      case Failure(_) => store
      case Success(s) =>
        assert s == store + [Record(row, loc, now)];
        s
  }

  /** The loop over the rows, in order, into the freshly emptied collection; row `i` is saved at `clock(i)`. */
  function ImportRows(rows: seq<Row>, geocoder: string -> Option<GeocodeReply>, parseFloat: string -> real,
                      clock: nat -> int): (r: seq<FloodDamage>)
    ensures |r| <= |rows|
    ensures UniqueSequences(r)
    ensures forall j :: 0 <= j < |r| ==> SchemaValid(r[j])
  {
    if |rows| == 0 then []
    else
      var n := |rows| - 1;
      var before := ImportRows(rows[..n], geocoder, parseFloat, clock);
      var after := ImportRow(before, rows[n], geocoder, parseFloat, clock(n));
      assert after != before ==> SchemaValid(after[|after| - 1]);
      after
  }

  /**
   * `importFloodData`: when the table cannot be read or parsed nothing
   * changes; otherwise the collection is emptied and reloaded row by row.
   */
  function ImportFloodData(store: seq<FloodDamage>, table: Option<seq<Row>>,
                           geocoder: string -> Option<GeocodeReply>, parseFloat: string -> real,
                           clock: nat -> int): (r: seq<FloodDamage>)
    ensures table.None? ==> r == store
    ensures table.Some? ==> r == ImportRows(table.value, geocoder, parseFloat, clock)
  {
    match table
    case None => store
    case Some(rows) => ImportRows(rows, geocoder, parseFloat, clock)
  }

  /** The previous contents never survive a run that read its table. */
  lemma ImportReplacesContents(s1: seq<FloodDamage>, s2: seq<FloodDamage>, rows: seq<Row>,
                               geocoder: string -> Option<GeocodeReply>, parseFloat: string -> real,
                               clock: nat -> int)
    ensures ImportFloodData(s1, Some(rows), geocoder, parseFloat, clock)
         == ImportFloodData(s2, Some(rows), geocoder, parseFloat, clock)
    ensures forall d :: d in ImportFloodData(s1, Some(rows), geocoder, parseFloat, clock) ==>
              exists i :: 0 <= i < |rows| && d.sequence == rows[i].sequence && d.address == rows[i].address
  {
    ImportRowsFromRows(rows, geocoder, parseFloat, clock);
  }

  lemma {:induction false} ImportRowsFromRows(rows: seq<Row>, geocoder: string -> Option<GeocodeReply>,
                                             parseFloat: string -> real, clock: nat -> int)
    ensures forall d :: d in ImportRows(rows, geocoder, parseFloat, clock) ==>
              exists i :: 0 <= i < |rows| && d.sequence == rows[i].sequence && d.address == rows[i].address
  {
    if |rows| > 0 {
      var n := |rows| - 1;
      ImportRowsFromRows(rows[..n], geocoder, parseFloat, clock);
      forall d | d in ImportRows(rows, geocoder, parseFloat, clock)
        ensures exists i :: 0 <= i < |rows| && d.sequence == rows[i].sequence && d.address == rows[i].address
      {
        var before := ImportRows(rows[..n], geocoder, parseFloat, clock);
        if d in before {
          var i :| 0 <= i < n && d.sequence == rows[..n][i].sequence && d.address == rows[..n][i].address;
          assert rows[i] == rows[..n][i];
        } else {
          assert d.sequence == rows[n].sequence && d.address == rows[n].address;
        }
      }
    }
  }

  /**
   * The reference result: one record per row that the geocoder can place,
   * in row order, each stamped with its save time.
   */
  function Placed(rows: seq<Row>, geocoder: string -> Option<GeocodeReply>, parseFloat: string -> real,
                  clock: nat -> int): seq<FloodDamage>
  {
    if |rows| == 0 then []
    else
      var n := |rows| - 1;
      var rest := Placed(rows[..n], geocoder, parseFloat, clock);
      match GetNaverGeocode(geocoder(rows[n].address), parseFloat)
      case None => rest
      case Some(loc) => rest + [Record(rows[n], loc, clock(n))]
  }

  /** No save can fail: the table's sequence numbers are distinct and its text fields are filled in. */
  ghost predicate Savable(rows: seq<Row>) {
    && (forall i, j :: 0 <= i < j < |rows| ==> rows[i].sequence != rows[j].sequence)
    && (forall i :: 0 <= i < |rows| ==> rows[i].address != "" && rows[i].damageDate != "")
  }

  lemma {:induction false} PlacedSequences(rows: seq<Row>, geocoder: string -> Option<GeocodeReply>,
                                          parseFloat: string -> real, clock: nat -> int)
    ensures forall j :: 0 <= j < |Placed(rows, geocoder, parseFloat, clock)| ==>
              exists i :: 0 <= i < |rows| && Placed(rows, geocoder, parseFloat, clock)[j].sequence == rows[i].sequence
  {
    if |rows| > 0 {
      var n := |rows| - 1;
      var rest := Placed(rows[..n], geocoder, parseFloat, clock);
      PlacedSequences(rows[..n], geocoder, parseFloat, clock);
      var p := Placed(rows, geocoder, parseFloat, clock);
      assert p == rest || (p == rest + [p[|p| - 1]] && p[|p| - 1].sequence == rows[n].sequence);
      forall j | 0 <= j < |p|
        ensures exists i :: 0 <= i < |rows| && p[j].sequence == rows[i].sequence
      {
        if j < |rest| {
          assert p[j] == rest[j];
          var i :| 0 <= i < n && rest[j].sequence == rows[..n][i].sequence;
          assert rows[i] == rows[..n][i];
        } else {
          assert 0 <= n < |rows| && p[j].sequence == rows[n].sequence;
        }
      }
      assert forall j :: 0 <= j < |p| ==> exists i :: 0 <= i < |rows| && p[j].sequence == rows[i].sequence;
    } else {
      assert Placed(rows, geocoder, parseFloat, clock) == [];
    }
  }

  /**
   * When no save fails, the reloaded collection is exactly the rows the
   * geocoder could place, in order: a failed row is skipped and the loop
   * goes on with the next one.
   */
  lemma {:induction false} ImportKeepsExactlyPlacedRows(rows: seq<Row>, geocoder: string -> Option<GeocodeReply>,
                                                       parseFloat: string -> real, clock: nat -> int)
    requires Savable(rows)
    ensures ImportRows(rows, geocoder, parseFloat, clock) == Placed(rows, geocoder, parseFloat, clock)
  {
    if |rows| > 0 {
      var n := |rows| - 1;
      var init := rows[..n];
      assert Savable(init);
      ImportKeepsExactlyPlacedRows(init, geocoder, parseFloat, clock);
      var before := Placed(init, geocoder, parseFloat, clock);
      match GetNaverGeocode(geocoder(rows[n].address), parseFloat)
      case None =>
      case Some(loc) =>
        PlacedSequences(init, geocoder, parseFloat, clock);
        forall j | 0 <= j < |before|
          ensures before[j].sequence != rows[n].sequence
        {
          var i :| 0 <= i < n && before[j].sequence == init[i].sequence;
          assert init[i] == rows[i];
        }
        assert !HasSequence(before, rows[n].sequence);
    }
  }
}
