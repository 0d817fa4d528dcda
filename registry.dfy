/** The tracked-object data model of the QR tracker page and the pure updates
    the page applies to its object list: the seed list, registration of a new
    object, the scan commit, the "objects with a location" filter, the
    identity token and the download file name. */
module Registry {
  import opened Wrappers
  import opened Text

  /** One position sample. Coordinates are kept opaque (the page never
      computes with them); timestamps are milliseconds since the epoch. */
  datatype LocationData = LocationData(
    latitude: real,
    longitude: real,
    timestamp: int,
    address: Option<string>)

  datatype TrackedObject = TrackedObject(
    id: string,
    name: string,
    qrCode: string,
    lastLocation: Option<LocationData>,
    locationHistory: seq<LocationData>,
    createdAt: int)

  /** The ledger invariant: no history means no last location, otherwise the
      last location is the newest (first) entry of the history. */
  predicate HistoryConsistent(o: TrackedObject) {
    if o.locationHistory == [] then o.lastLocation == None
    else o.lastLocation == Some(o.locationHistory[0])
  }

  predicate AllConsistent(objects: seq<TrackedObject>) {
    forall i :: 0 <= i < |objects| ==> HistoryConsistent(objects[i])
  }

  predicate TokensDistinct(objects: seq<TrackedObject>) {
    forall i, j :: 0 <= i < j < |objects| ==> objects[i].qrCode != objects[j].qrCode
  }

  /** Newest first: along the history, timestamps never increase. */
  predicate NewestFirst(history: seq<LocationData>) {
    forall i, j :: 0 <= i < j < |history| ==> history[i].timestamp >= history[j].timestamp
  }

  // ---------------------------------------------------------------------
  // Seed list

  function Sample(latitude: real, longitude: real, timestamp: int, address: string): LocationData {
    LocationData(latitude, longitude, timestamp, Some(address))
  }

  const MsPerHour: int := 60 * 60 * 1000
  const MsPerDay: int := 24 * MsPerHour

  /** The two example objects the page installs when it is mounted, with
      every clock reading taken as `now`. */
  function SampleObjects(now: int): (r: seq<TrackedObject>)
    ensures |r| == 2
    ensures AllConsistent(r) && TokensDistinct(r)
    ensures forall i :: 0 <= i < |r| ==> NewestFirst(r[i].locationHistory)
    ensures forall i :: 0 <= i < |r| ==> r[i].createdAt < now
  {
    var saoPaulo := Sample(-23.5505, -46.6333, now - 2 * MsPerHour, "São Paulo, SP");
    var paulista := Sample(-23.5489, -46.6388, now - 24 * MsPerHour, "Avenida Paulista, SP");
    var rio := Sample(-22.9068, -43.1729, now - 5 * MsPerHour, "Rio de Janeiro, RJ");
    [ TrackedObject("1", "Notebook Dell", "QR_NOTEBOOK_001", Some(saoPaulo),
                    [saoPaulo, paulista], now - 7 * MsPerDay),
      TrackedObject("2", "Câmera Canon", "QR_CAMERA_002", Some(rio),
                    [rio], now - 3 * MsPerDay) ]
  }

  // ---------------------------------------------------------------------
  // Identity token and download name

  /** The identity token of a new object:
      `QR_` + the upper-cased name with whitespace runs collapsed to `_`
      + `_` + the decimal clock reading. */
  function QrToken(name: string, stamp: nat): (token: string)
    ensures |token| >= 3 && token[..3] == "QR_"
    ensures NoWhitespace(token)
    ensures LastSegment(token) == Decimal(stamp)
  {
    var middle := CollapseWhitespace(ToUpper(name));
    var digits := Decimal(stamp);
    TokenPrefix(middle, digits);
    TokenNoWhitespace(middle, digits);
    LastSegmentAfter("QR_" + middle, digits);
    "QR_" + middle + "_" + digits
  }

  lemma TokenPrefix(middle: string, digits: string)
    ensures ("QR_" + middle + "_" + digits)[..3] == "QR_"
  {
    assert "QR_" + middle + "_" + digits == "QR_" + (middle + "_" + digits);
  }

  lemma TokenNoWhitespace(middle: string, digits: string)
    requires NoWhitespace(middle) && AllDigits(digits)
    ensures NoWhitespace("QR_" + middle + "_" + digits)
  {
    NoWhitespaceConcat("QR_", middle);
    NoWhitespaceConcat("QR_" + middle, "_");
    NoWhitespaceConcat("QR_" + middle + "_", digits);
  }

  /** The clock reading a token was made with, read back from the segment
      after its last underscore; None when that segment is not a canonical
      decimal number. */
  function StampOf(token: string): (s: Option<nat>)
    ensures s.Some? ==> Decimal(s.value) == LastSegment(token)
    ensures s.None? ==> forall n: nat :: Decimal(n) != LastSegment(token)
  {
    var seg := LastSegment(token);
    if seg != [] && AllDigits(seg) && (|seg| == 1 || seg[0] != '0') then
      DecimalOfValue(seg);
      Some(Value(seg))
    else None
  }

  /** A canonical decimal string is the rendering of the number it stands for. */
  lemma {:induction false} DecimalOfValue(s: string)
    requires s != [] && AllDigits(s) && (|s| == 1 || s[0] != '0')
    ensures Decimal(Value(s)) == s
    decreases |s|
  {
    var p := s[..|s| - 1];
    var d := s[|s| - 1] as int - '0' as int;
    if p != [] {
      assert p[0] == s[0];
      DecimalOfValue(p);
      assert Value(p) > 0;
      assert (10 * Value(p) + d) / 10 == Value(p);
      assert (10 * Value(p) + d) % 10 == d;
      assert s == p + [s[|s| - 1]];
    }
  }

  /** The clock reading is recovered from the token. */
  lemma StampRoundTrip(name: string, stamp: nat)
    ensures StampOf(QrToken(name, stamp)) == Some(stamp)
  {
    var seg := LastSegment(QrToken(name, stamp));
    assert seg == Decimal(stamp);
    ValueOfDecimal(stamp);
  }

  /** Registrations made at different clock readings get different tokens,
      whatever the names. */
  lemma TokensDifferByStamp(name1: string, stamp1: nat, name2: string, stamp2: nat)
    requires stamp1 != stamp2
    ensures QrToken(name1, stamp1) != QrToken(name2, stamp2)
  {
    StampRoundTrip(name1, stamp1);
    StampRoundTrip(name2, stamp2);
  }

  /** Two registrations in the same millisecond get the same token exactly
      when their names agree once upper-cased and whitespace-collapsed. */
  lemma SameStampTokens(name1: string, name2: string, stamp: nat)
    ensures QrToken(name1, stamp) == QrToken(name2, stamp) <==>
      CollapseWhitespace(ToUpper(name1)) == CollapseWhitespace(ToUpper(name2))
  {
    TokenMiddle(CollapseWhitespace(ToUpper(name1)), CollapseWhitespace(ToUpper(name2)), Decimal(stamp));
  }

  /** The middle of a token is determined by the token. */
  lemma TokenMiddle(m1: string, m2: string, digits: string)
    ensures "QR_" + m1 + "_" + digits == "QR_" + m2 + "_" + digits <==> m1 == m2
  {
    var t1 := "QR_" + m1 + "_" + digits;
    var t2 := "QR_" + m2 + "_" + digits;
    if t1 == t2 {
      assert |m1| == |m2|;
      assert t1[3..3 + |m1|] == m1;
      assert t2[3..3 + |m2|] == m2;
    }
  }

  /** A name with a space and the same name typed with an underscore in
      upper case collide when registered in the same millisecond. */
  lemma SpaceAndUnderscoreCollide(stamp: nat)
    ensures QrToken("a b", stamp) == QrToken("A_B", stamp)
  {
    assert ToUpper("a b") == "A B";
    assert ToUpper("A_B") == "A_B";
    CollapseWithoutWhitespace("A_B");
    CollapseWithoutWhitespace("A");
    CollapseWithoutWhitespace("B");
    assert "A B" == "A" + " B" && " B" == " " + "B";
    CollapseAppend("A", " B");
    CollapseRunThen(" ", "B");
    SameStampTokens("a b", "A_B", stamp);
  }

  /** The seed tokens ("QR_NOTEBOOK_001", "QR_CAMERA_002") end in a segment
      with a leading zero, which no clock reading renders to: no generated
      token can collide with them. */
  lemma SeedTokensCarryNoStamp(now: int)
    ensures forall i :: 0 <= i < |SampleObjects(now)| ==> StampOf(SampleObjects(now)[i].qrCode) == None
  {
    var seeds := SampleObjects(now);
    assert seeds[0].qrCode == "QR_NOTEBOOK" + "_" + "001";
    assert seeds[1].qrCode == "QR_CAMERA" + "_" + "002";
    LastSegmentAfter("QR_NOTEBOOK", "001");
    LastSegmentAfter("QR_CAMERA", "002");
  }

  /** The download link's file name: `QR_` + the name (not upper-cased)
      with whitespace runs collapsed to `_` + `.png`. */
  function DownloadFileName(name: string): (f: string)
    ensures |f| >= 7 && f[..3] == "QR_" && f[|f| - 4..] == ".png"
    ensures NoWhitespace(f)
    ensures NoWhitespace(name) ==> f == "QR_" + name + ".png"
  {
    var middle := CollapseWhitespace(name);
    var f := "QR_" + middle + ".png";
    NoWhitespaceConcat("QR_", middle);
    NoWhitespaceConcat("QR_" + middle, ".png");
    assert forall i :: 0 <= i < |f| ==>
      (i < 3 && f[i] == "QR_"[i]) || (3 <= i < 3 + |middle| && f[i] == middle[i - 3])
      || (3 + |middle| <= i && f[i] == ".png"[i - 3 - |middle|]);
    assert NoWhitespace(name) ==> middle == name by {
      if NoWhitespace(name) { CollapseWithoutWhitespace(name); }
    }
    f
  }

  /** The download action: nothing happens without a rendered image or a
      selected object; otherwise the file is named after the object. */
  function DownloadName(imageUrl: string, selected: Option<TrackedObject>): (r: Option<string>)
    ensures r.Some? <==> imageUrl != "" && selected.Some?
    ensures r.Some? ==> r.value == DownloadFileName(selected.value.name)
  {
    if imageUrl == "" || selected.None? then None
    else Some(DownloadFileName(selected.value.name))
  }

  // ---------------------------------------------------------------------
  // Registration

  /** The object a registration creates: `id` from one clock reading, the
      token from another, no location yet. */
  function NewObject(name: string, idStamp: nat, tokenStamp: nat, createdAt: int): (o: TrackedObject)
    ensures HistoryConsistent(o)
  {
    TrackedObject(Decimal(idStamp), name, QrToken(name, tokenStamp), None, [], createdAt)
  }

  /** Registration: a blank name changes nothing; otherwise exactly one new
      object is appended after all the previous ones. */
  function AddObject(prev: seq<TrackedObject>, name: string, idStamp: nat, tokenStamp: nat,
                     createdAt: int): (r: seq<TrackedObject>)
    ensures IsBlank(name) ==> r == prev
    ensures !IsBlank(name) ==>
      && |r| == |prev| + 1
      && r[..|prev|] == prev
      && r[|prev|].name == name
      && r[|prev|].lastLocation == None && r[|prev|].locationHistory == []
      && r[|prev|].qrCode == QrToken(name, tokenStamp)
      && r[|prev|].id == Decimal(idStamp)
      && r[|prev|].createdAt == createdAt
  {
    if IsBlank(name) then prev
    else prev + [NewObject(name, idStamp, tokenStamp, createdAt)]
  }

  lemma AddKeepsConsistent(prev: seq<TrackedObject>, name: string, idStamp: nat, tokenStamp: nat,
                           createdAt: int)
    requires AllConsistent(prev)
    ensures AllConsistent(AddObject(prev, name, idStamp, tokenStamp, createdAt))
  {
    var r := AddObject(prev, name, idStamp, tokenStamp, createdAt);
    if !IsBlank(name) {
      assert forall i :: 0 <= i < |prev| ==> r[i] == prev[i];
    }
  }

  /** The new token is unique in the list as long as no object already
      carries a token whose last segment is this clock reading. */
  lemma AddKeepsTokensDistinct(prev: seq<TrackedObject>, name: string, idStamp: nat,
                               tokenStamp: nat, createdAt: int)
    requires TokensDistinct(prev)
    requires forall i :: 0 <= i < |prev| ==> StampOf(prev[i].qrCode) != Some(tokenStamp)
    ensures TokensDistinct(AddObject(prev, name, idStamp, tokenStamp, createdAt))
  {
    var r := AddObject(prev, name, idStamp, tokenStamp, createdAt);
    if !IsBlank(name) {
      StampRoundTrip(name, tokenStamp);
      var token := r[|prev|].qrCode;
      assert StampOf(token) == Some(tokenStamp);
      forall i, j | 0 <= i < j < |r|
        ensures r[i].qrCode != r[j].qrCode
      {
        assert r[i] == prev[i];
        if j < |prev| { assert r[j] == prev[j]; }
      }
    }
  }

  // ---------------------------------------------------------------------
  // Scan commit

  /** The object after its token was scanned at `sample`: the sample becomes
      the last location and is put in front of the unchanged old history;
      everything else about the object stays as it was. */
  function RecordLocation(o: TrackedObject, sample: LocationData): (r: TrackedObject)
    ensures HistoryConsistent(r)
    ensures r.lastLocation == Some(sample)
    ensures |r.locationHistory| == |o.locationHistory| + 1
    ensures r.locationHistory[0] == sample && r.locationHistory[1..] == o.locationHistory
    ensures r.id == o.id && r.name == o.name && r.qrCode == o.qrCode && r.createdAt == o.createdAt
  {
    o.(lastLocation := Some(sample), locationHistory := [sample] + o.locationHistory)
  }

  /** The scan updater: `prev.map(obj => obj.qrCode === scanned ? ... : obj)`. */
  function CommitScan(prev: seq<TrackedObject>, scanned: string, sample: LocationData): (r: seq<TrackedObject>)
    ensures |r| == |prev|
    ensures forall i :: 0 <= i < |prev| && prev[i].qrCode != scanned ==> r[i] == prev[i]
    ensures forall i :: 0 <= i < |prev| && prev[i].qrCode == scanned ==>
      r[i] == RecordLocation(prev[i], sample)
  {
    if prev == [] then []
    else
      [if prev[0].qrCode == scanned then RecordLocation(prev[0], sample) else prev[0]]
      + CommitScan(prev[1..], scanned, sample)
  }

  /** A token that no object carries leaves the list exactly as it was. */
  lemma CommitWithoutMatch(prev: seq<TrackedObject>, scanned: string, sample: LocationData)
    requires forall i :: 0 <= i < |prev| ==> prev[i].qrCode != scanned
    ensures CommitScan(prev, scanned, sample) == prev
  {
  }

  /** The commit keeps every token where it was. */
  lemma CommitKeepsTokens(prev: seq<TrackedObject>, scanned: string, sample: LocationData)
    ensures forall i :: 0 <= i < |prev| ==>
      CommitScan(prev, scanned, sample)[i].qrCode == prev[i].qrCode
    ensures TokensDistinct(prev) ==> TokensDistinct(CommitScan(prev, scanned, sample))
  {
  }

  lemma CommitKeepsConsistent(prev: seq<TrackedObject>, scanned: string, sample: LocationData)
    requires AllConsistent(prev)
    ensures AllConsistent(CommitScan(prev, scanned, sample))
  {
  }

  /** With a clock that does not go backwards, histories stay newest first. */
  lemma CommitKeepsNewestFirst(prev: seq<TrackedObject>, scanned: string, sample: LocationData)
    requires forall i :: 0 <= i < |prev| ==> NewestFirst(prev[i].locationHistory)
    requires forall i, k :: 0 <= i < |prev| && 0 <= k < |prev[i].locationHistory| ==>
      prev[i].locationHistory[k].timestamp <= sample.timestamp
    ensures forall i :: 0 <= i < |prev| ==>
      NewestFirst(CommitScan(prev, scanned, sample)[i].locationHistory)
  {
    var r := CommitScan(prev, scanned, sample);
    forall i | 0 <= i < |prev|
      ensures NewestFirst(r[i].locationHistory)
    {
      if prev[i].qrCode == scanned {
        var h := r[i].locationHistory;
        assert forall k :: 1 <= k < |h| ==> h[k] == prev[i].locationHistory[k - 1];
      }
    }
  }

  /** Two scans of the same token, one after the other: the newer sample
      comes first and the older history follows unchanged. */
  lemma TwoScans(prev: seq<TrackedObject>, scanned: string, p1: LocationData, p2: LocationData, i: nat)
    requires i < |prev| && prev[i].qrCode == scanned
    ensures CommitScan(CommitScan(prev, scanned, p1), scanned, p2)[i].locationHistory
      == [p2, p1] + prev[i].locationHistory
    ensures CommitScan(CommitScan(prev, scanned, p1), scanned, p2)[i].lastLocation == Some(p2)
  {
    var once := CommitScan(prev, scanned, p1);
    assert once[i].qrCode == scanned;
    var twice := CommitScan(once, scanned, p2);
    assert twice[i].locationHistory == [p2] + once[i].locationHistory;
  }

  // ---------------------------------------------------------------------
  // Objects with a location

  /** `objects.filter(obj => obj.lastLocation)`. */
  function WithLocation(objects: seq<TrackedObject>): (r: seq<TrackedObject>)
    ensures |r| <= |objects|
    ensures forall i :: 0 <= i < |r| ==> r[i].lastLocation.Some?
    ensures forall o :: o in r <==> o in objects && o.lastLocation.Some?
  {
    if objects == [] then []
    else if objects[0].lastLocation.Some? then [objects[0]] + WithLocation(objects[1..])
    else WithLocation(objects[1..])
  }

  /** The filter keeps relative order: an object with a location is followed
      in the result by what the filter keeps of the objects after it. */
  lemma {:induction false} WithLocationAppend(a: seq<TrackedObject>, b: seq<TrackedObject>)
    ensures WithLocation(a + b) == WithLocation(a) + WithLocation(b)
    decreases |a|
  {
    if a == [] {
      assert a + b == b;
    } else {
      assert (a + b)[0] == a[0];
      assert (a + b)[1..] == a[1..] + b;
      WithLocationAppend(a[1..], b);
    }
  }

  /** A new registration never shows in the "with location" list. */
  lemma WithLocationAfterAdd(prev: seq<TrackedObject>, name: string, idStamp: nat, tokenStamp: nat,
                             createdAt: int)
    ensures WithLocation(AddObject(prev, name, idStamp, tokenStamp, createdAt)) == WithLocation(prev)
  {
    if !IsBlank(name) {
      var o := NewObject(name, idStamp, tokenStamp, createdAt);
      WithLocationAppend(prev, [o]);
      assert [o][1..] == [];
    }
  }

  /** After a scan whose token some object carries, that object is listed
      with its new location. */
  lemma WithLocationAfterScan(prev: seq<TrackedObject>, scanned: string, sample: LocationData, i: nat)
    requires i < |prev| && prev[i].qrCode == scanned
    ensures RecordLocation(prev[i], sample) in WithLocation(CommitScan(prev, scanned, sample))
  {
    var r := CommitScan(prev, scanned, sample);
    assert r[i] in r;
  }

  /** Under the ledger invariant, an object listed with a location has a
      non-empty history whose newest entry is that location. */
  lemma WithLocationHasHistory(objects: seq<TrackedObject>)
    requires AllConsistent(objects)
    ensures forall o :: o in WithLocation(objects) ==>
      o.locationHistory != [] && o.lastLocation == Some(o.locationHistory[0])
  {
    forall o | o in WithLocation(objects)
      ensures o.locationHistory != [] && o.lastLocation == Some(o.locationHistory[0])
    {
      var i :| 0 <= i < |objects| && objects[i] == o;
      assert HistoryConsistent(objects[i]);
    }
  }

  // ---------------------------------------------------------------------
  // Scenarios

  /** The page's simulated scan reads the token "QR_NOTEBOOK_001": on the
      seed list it records the sample on the notebook only. */
  lemma DemoScanOnSeeds(now: int, sample: LocationData)
    ensures var seeds := SampleObjects(now);
      var r := CommitScan(seeds, "QR_NOTEBOOK_001", sample);
      && r[0].lastLocation == Some(sample)
      && r[0].locationHistory == [sample] + seeds[0].locationHistory
      && |r[0].locationHistory| == 3
      && r[1] == seeds[1]
  {
    var seeds := SampleObjects(now);
    assert seeds[0].qrCode == "QR_NOTEBOOK_001";
    assert seeds[1].qrCode != "QR_NOTEBOOK_001";
  }

  /** A freshly registered object, scanned once by its own token, holds that
      one sample and nothing else changes in the list. */
  lemma RegisterThenScan(prev: seq<TrackedObject>, name: string, idStamp: nat, tokenStamp: nat,
                         createdAt: int, sample: LocationData)
    requires !IsBlank(name)
    requires forall i :: 0 <= i < |prev| ==> StampOf(prev[i].qrCode) != Some(tokenStamp)
    ensures var added := AddObject(prev, name, idStamp, tokenStamp, createdAt);
      var r := CommitScan(added, QrToken(name, tokenStamp), sample);
      && r[..|prev|] == prev
      && r[|prev|].lastLocation == Some(sample)
      && r[|prev|].locationHistory == [sample]
  {
    var added := AddObject(prev, name, idStamp, tokenStamp, createdAt);
    var token := QrToken(name, tokenStamp);
    StampRoundTrip(name, tokenStamp);
    var r := CommitScan(added, token, sample);
    forall i | 0 <= i < |prev|
      ensures r[i] == prev[i]
    {
      assert added[i] == prev[i];
      assert prev[i].qrCode != token;
    }
  }
}
