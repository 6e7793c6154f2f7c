/**
  The rows of a finished scan, collapsed to one per device
  (internal/commands/service.go:693-753).
 */
module ScanMerge {
  import opened Prelude

  /** A ScanDetection. MAC addresses are opaque numbers, 0 for a blank one; blank text is the empty string. */
  datatype Detection = Detection(mac: nat, rssi: int, band: string, source: Source, kind: string, maker: string,
                                 name: string)

  /** Only BLERAW is told apart. */
  datatype Source = BleRaw | Other(name: string)

  function FirstOf(a: string, b: string): string {
    if a == "" then b else a
  }

  /** What a later row of the same device adds to its merged row. */
  function Combined(e: Detection, r: Detection): Detection {
    Detection(e.mac, r.rssi, FirstOf(e.band, r.band), if r.source == BleRaw then BleRaw else e.source,
              FirstOf(e.kind, r.kind), FirstOf(e.maker, r.maker), FirstOf(e.name, r.name))
  }

  /** Folds r into the row of its device, or appends it. */
  function Absorbed(out: seq<Detection>, r: Detection): seq<Detection> {
    if out == [] then [r]
    else if out[0].mac == r.mac then [Combined(out[0], r)] + out[1..]
    else [out[0]] + Absorbed(out[1..], r)
  }

  function AbsorbedAll(out: seq<Detection>, rows: seq<Detection>): seq<Detection> {
    if rows == [] then out else Absorbed(AbsorbedAll(out, rows[..|rows| - 1]), rows[|rows| - 1])
  }

  function Merged(rows: seq<Detection>): seq<Detection> {
    AbsorbedAll([], rows)
  }

  function Macs(rows: seq<Detection>): seq<nat> {
    seq(|rows|, i requires 0 <= i < |rows| => rows[i].mac)
  }

  /** The position of a device in a list of rows. */
  function IndexOf(macs: seq<nat>, mac: nat): (i: nat)
    ensures i <= |macs| && (i < |macs| ==> macs[i] == mac)
    ensures forall j | 0 <= j < i :: macs[j] != mac
  {
    if macs == [] || macs[0] == mac then 0 else 1 + IndexOf(macs[1..], mac)
  }

  /** Absorbing changes one row in place, or appends one. */
  lemma {:induction false} AbsorbedIs(out: seq<Detection>, r: Detection)
    ensures var i := IndexOf(Macs(out), r.mac);
      Absorbed(out, r) == if i < |out| then out[i := Combined(out[i], r)] else out + [r]
  {
    if out != [] && out[0].mac != r.mac {
      assert Macs(out)[1..] == Macs(out[1..]);
      AbsorbedIs(out[1..], r);
      assert out == [out[0]] + out[1..];
    }
  }

  // ---------------------------------------------------------------------------
  // The loop
  // ---------------------------------------------------------------------------

  /** The rows in order, looked up by device. */
  ghost predicate Represents(order: seq<nat>, byMac: map<nat, Detection>, out: seq<Detection>) {
    && order == Macs(out)
    && Distinct(order)
    && (forall m :: m in byMac <==> m in order)
    && (forall i | 0 <= i < |out| :: out[i].mac in byMac && byMac[out[i].mac] == out[i])
  }

  lemma RepresentsUpdate(order: seq<nat>, byMac: map<nat, Detection>, out: seq<Detection>, r: Detection)
    requires Represents(order, byMac, out) && r.mac in byMac
    ensures Represents(order, byMac[r.mac := Combined(byMac[r.mac], r)], Absorbed(out, r))
  {
    hide Absorbed, IndexOf;
    AbsorbedIs(out, r);
    var i := IndexOf(order, r.mac);
    assert i < |out| by {
      var j :| 0 <= j < |order| && order[j] == r.mac;
    }
    var c := Combined(out[i], r);
    assert c.mac == out[i].mac == r.mac;
    assert byMac[r.mac] == out[i];
    hide Combined;
    RepresentsReplaced(order, byMac, out, i, c);
  }

  lemma RepresentsReplaced(order: seq<nat>, byMac: map<nat, Detection>, out: seq<Detection>, i: nat, c: Detection)
    requires Represents(order, byMac, out) && i < |out| && out[i].mac == c.mac
    ensures Represents(order, byMac[c.mac := c], out[i := c])
  {
    assert Macs(out[i := c]) == order;
    forall j | 0 <= j < |out| && j != i
      ensures out[j].mac != c.mac
    {
      assert order[j] != order[i];
    }
  }

  lemma RepresentsAppend(order: seq<nat>, byMac: map<nat, Detection>, out: seq<Detection>, r: Detection)
    requires Represents(order, byMac, out) && r.mac !in byMac
    ensures Represents(order + [r.mac], byMac[r.mac := r], Absorbed(out, r))
  {
    hide Absorbed, Combined, IndexOf;
    AbsorbedIs(out, r);
    NotThere(order, r.mac);
    RepresentsLonger(order, byMac, out, r);
  }

  lemma NotThere(macs: seq<nat>, mac: nat)
    requires mac !in macs
    ensures IndexOf(macs, mac) == |macs|
  {
  }

  lemma RepresentsLonger(order: seq<nat>, byMac: map<nat, Detection>, out: seq<Detection>, r: Detection)
    requires Represents(order, byMac, out) && r.mac !in byMac
    ensures Represents(order + [r.mac], byMac[r.mac := r], out + [r])
  {
    assert Macs(out + [r]) == order + [r.mac];
    forall i | 0 <= i < |out|
      ensures out[i].mac != r.mac
    {
      assert out[i].mac in byMac;
    }
  }

  /** mergeScanRows: a map from device to row, and the order of first sight. */
  method MergeScanRows(rows: seq<Detection>) returns (out: seq<Detection>)
    ensures out == Merged(rows)
  {
    if |rows| == 0 {
      return rows;
    }
    var byMac: map<nat, Detection> := map[];
    var order: seq<nat> := [];
    ghost var done: seq<Detection> := [];
    assert Macs(done) == [];
    for i := 0 to |rows|
      invariant done == Merged(rows[..i])
      invariant Represents(order, byMac, done)
    {
      var r := rows[i];
      assert rows[..i + 1][..i] == rows[..i];
      if r.mac in byMac {
        RepresentsUpdate(order, byMac, done, r);
        byMac := byMac[r.mac := Combined(byMac[r.mac], r)];
      } else {
        RepresentsAppend(order, byMac, done, r);
        byMac := byMac[r.mac := r];
        order := order + [r.mac];
      }
      done := Absorbed(done, r);
    }
    assert rows[..|rows|] == rows;
    out := [];
    for i := 0 to |order|
      invariant out == done[..i]
    {
      assert order[i] == done[i].mac;
      out := out + [byMac[order[i]]];
    }
  }

  // ---------------------------------------------------------------------------
  // What the merged rows say
  // ---------------------------------------------------------------------------

  /** The first non-blank text among the rows of a device. */
  function FirstText(rows: seq<Detection>, mac: nat, text: Detection -> string): string {
    if rows == [] then ""
    else
      var before := FirstText(rows[..|rows| - 1], mac, text);
      if before == "" && rows[|rows| - 1].mac == mac then text(rows[|rows| - 1]) else before
  }

  /** The signal strength of the last row of a device. */
  function LastRssi(rows: seq<Detection>, mac: nat): Option<int> {
    if rows == [] then None
    else if rows[|rows| - 1].mac == mac then Some(rows[|rows| - 1].rssi)
    else LastRssi(rows[..|rows| - 1], mac)
  }

  /** BLERAW if any row of the device was, else the source of its first row. */
  function BestSource(rows: seq<Detection>, mac: nat): Option<Source> {
    if rows == [] then None
    else
      var before, r := BestSource(rows[..|rows| - 1], mac), rows[|rows| - 1];
      if r.mac != mac then before else if r.source == BleRaw || before.None? then Some(r.source) else before
  }

  /** The devices of rows, each once, by first sight. */
  function Sighted(rows: seq<Detection>): seq<nat> {
    if rows == [] then []
    else
      var before, mac := Sighted(rows[..|rows| - 1]), rows[|rows| - 1].mac;
      if mac in before then before else before + [mac]
  }

  ghost predicate Describes(rows: seq<Detection>, d: Detection) {
    && Some(d.rssi) == LastRssi(rows, d.mac)
    && Some(d.source) == BestSource(rows, d.mac)
    && d.band == FirstText(rows, d.mac, (r: Detection) => r.band)
    && d.kind == FirstText(rows, d.mac, (r: Detection) => r.kind)
    && d.maker == FirstText(rows, d.mac, (r: Detection) => r.maker)
    && d.name == FirstText(rows, d.mac, (r: Detection) => r.name)
  }

  /** A device that was not sighted has no data. */
  lemma {:induction false} Unsighted(rows: seq<Detection>, mac: nat, text: Detection -> string)
    requires mac !in Sighted(rows)
    ensures FirstText(rows, mac, text) == "" && LastRssi(rows, mac) == None && BestSource(rows, mac) == None
  {
    if rows != [] {
      assert rows[|rows| - 1].mac in Sighted(rows);
      Unsighted(rows[..|rows| - 1], mac, text);
    }
  }

  lemma DescribesCombined(rows: seq<Detection>, d: Detection, r: Detection)
    requires rows != [] && r == rows[|rows| - 1]
    requires d.mac == r.mac && Describes(rows[..|rows| - 1], d)
    ensures Describes(rows, Combined(d, r))
  {
  }

  lemma DescribesNew(rows: seq<Detection>, r: Detection)
    requires rows != [] && r == rows[|rows| - 1] && r.mac !in Sighted(rows[..|rows| - 1])
    ensures Describes(rows, r)
  {
    var before := rows[..|rows| - 1];
    Unsighted(before, r.mac, (r: Detection) => r.band);
    Unsighted(before, r.mac, (r: Detection) => r.kind);
    Unsighted(before, r.mac, (r: Detection) => r.maker);
    Unsighted(before, r.mac, (r: Detection) => r.name);
  }

  lemma DescribesOther(rows: seq<Detection>, d: Detection)
    requires rows != [] && rows[|rows| - 1].mac != d.mac && Describes(rows[..|rows| - 1], d)
    ensures Describes(rows, d)
  {
  }

  /**
    The merged list has one row for each device, in order of first sight, with the last
    signal strength, the first non-blank details and the source BLERAW if any row had it.
   */
  lemma {:induction false} MergedIs(rows: seq<Detection>)
    ensures Macs(Merged(rows)) == Sighted(rows)
    ensures Distinct(Sighted(rows))
    ensures forall i | 0 <= i < |Merged(rows)| :: Describes(rows, Merged(rows)[i])
  {
    if rows != [] {
      var before, r := rows[..|rows| - 1], rows[|rows| - 1];
      MergedIs(before);
      var out := Merged(before);
      AbsorbedIs(out, r);
      var k := IndexOf(Macs(out), r.mac);
      var out' := Merged(rows);
      hide Absorbed, Describes, IndexOf;
      assert r.mac in Macs(out) <==> k < |out|;
      assert Macs(out') == if k < |out| then Macs(out) else Macs(out) + [r.mac];
      forall i | 0 <= i < |out'|
        ensures Describes(rows, out'[i])
      {
        if i < |out| {
          assert Describes(before, out[i]);
          if i == k {
            assert Macs(out)[k] == r.mac;
            DescribesCombined(rows, out[i], r);
          } else {
            assert Macs(out)[i] != r.mac;
            DescribesOther(rows, out[i]);
          }
        } else {
          DescribesNew(rows, r);
        }
      }
    }
  }

  // ---------------------------------------------------------------------------
  // Merging in stages
  // ---------------------------------------------------------------------------

  lemma {:induction false} AbsorbedAllConcat(out: seq<Detection>, a: seq<Detection>, b: seq<Detection>)
    ensures AbsorbedAll(out, a + b) == AbsorbedAll(AbsorbedAll(out, a), b)
  {
    if b == [] {
      assert a + b == a;
    } else {
      var ab := a + b;
      assert ab[..|ab| - 1] == a + b[..|b| - 1];
      AbsorbedAllConcat(out, a, b[..|b| - 1]);
    }
  }

  /** Rows of different devices pass through unchanged. */
  lemma {:induction false} DistinctUnchanged(rows: seq<Detection>)
    requires Distinct(Macs(rows))
    ensures Merged(rows) == rows
  {
    if rows != [] {
      var before, r := rows[..|rows| - 1], rows[|rows| - 1];
      assert Macs(before) == Macs(rows)[..|rows| - 1];
      DistinctUnchanged(before);
      AbsorbedIs(before, r);
      forall j | 0 <= j < |before|
        ensures Macs(before)[j] != r.mac
      {
        assert Macs(rows)[j] != Macs(rows)[|rows| - 1];
      }
      assert rows == before + [r];
    }
  }

  /** Merging what was merged so far with the rest gives what merging everything gives. */
  lemma MergeInStages(a: seq<Detection>, b: seq<Detection>)
    ensures Merged(a + b) == Merged(Merged(a) + b)
  {
    AbsorbedAllConcat([], a, b);
    AbsorbedAllConcat([], Merged(a), b);
    MergedIs(a);
    DistinctUnchanged(Merged(a));
  }
}
