/** The page component's state and its handlers, as a sequential state
    machine: the object list, the busy flag of the scanner and the two
    fields of the "add object" dialog. */
module App {
  import opened Wrappers
  import opened Text
  import opened Registry
  import opened Geolocation

  /** What the scan handler reports to the user. */
  datatype ScanOutcome = Recorded | Failed(error: GeoError)

  class TrackingApp {
    var objects: seq<TrackedObject>
    var isScanning: bool
    var newObjectName: string
    var showAddDialog: bool

    /** Every object keeps its last location in step with its history. */
    ghost predicate Valid()
      reads this
    {
      AllConsistent(objects)
    }

    /** Mounting the page: empty state, then the effect installs the seed list. */
    constructor (now: int)
      ensures Valid()
      ensures objects == SampleObjects(now)
      ensures !isScanning && newObjectName == "" && !showAddDialog
    {
      objects := [];
      isScanning := false;
      newObjectName := "";
      showAddDialog := false;
      objects := SampleObjects(now);
    }

    /** The scan button is disabled while a scan is in progress. */
    predicate ScanEnabled()
      reads this
    {
      !isScanning
    }

    /** Typing in the name field. */
    method SetNewObjectName(text: string)
      modifies this
      ensures newObjectName == text
      ensures objects == old(objects) && isScanning == old(isScanning)
      ensures showAddDialog == old(showAddDialog)
    {
      newObjectName := text;
    }

    /** Opening or closing the "add object" dialog. */
    method SetShowAddDialog(open: bool)
      modifies this
      ensures showAddDialog == open
      ensures objects == old(objects) && isScanning == old(isScanning)
      ensures newObjectName == old(newObjectName)
    {
      showAddDialog := open;
    }

    /** `addNewObject`: a blank name changes nothing; otherwise the object is
        appended, the name field is cleared and the dialog closed. The three
        clock readings of the source are parameters. */
    method AddNewObject(idStamp: nat, tokenStamp: nat, createdAt: int)
      requires Valid()
      modifies this
      ensures Valid()
      ensures objects == AddObject(old(objects), old(newObjectName), idStamp, tokenStamp, createdAt)
      ensures isScanning == old(isScanning)
      ensures IsBlank(old(newObjectName)) ==>
        newObjectName == old(newObjectName) && showAddDialog == old(showAddDialog)
      ensures !IsBlank(old(newObjectName)) ==> newObjectName == "" && !showAddDialog
    {
      var name := newObjectName;
      var prev := objects;
      if IsBlank(name) {
        return;
      }
      var added := AddObject(prev, name, idStamp, tokenStamp, createdAt);
      AddKeepsConsistent(prev, name, idStamp, tokenStamp, createdAt);
      objects := added;
      newObjectName := "";
      showAddDialog := false;
    }

    /** Entry of `handleScanQR`: the busy flag is raised. */
    method BeginScan()
      modifies this
      ensures isScanning
      ensures objects == old(objects) && newObjectName == old(newObjectName)
      ensures showAddDialog == old(showAddDialog)
    {
      isScanning := true;
    }

    /** A click on the scan button: ignored while a scan is in progress,
        otherwise it starts one. */
    method ClickScanButton() returns (started: bool)
      modifies this
      ensures started == old(ScanEnabled())
      ensures isScanning
      ensures objects == old(objects) && newObjectName == old(newObjectName)
      ensures showAddDialog == old(showAddDialog)
    {
      started := ScanEnabled();
      if started {
        BeginScan();
      }
    }

    /** The rest of `handleScanQR`, once the position provider has answered:
        on a position, every object carrying the scanned token records it;
        on an error nothing changes; either way the busy flag is lowered.
        The list committed to is the one current at that moment, so objects
        registered during the scan are kept. */
    method FinishScan(scanned: string, supported: bool, reading: Result<Coordinates, GeoError>,
                      now: int, fixedText: string) returns (outcome: ScanOutcome)
      requires Valid() && isScanning
      modifies this
      ensures Valid() && !isScanning
      ensures var located := GetCurrentLocation(supported, reading, now, fixedText);
        && objects == (if located.Success? then CommitScan(old(objects), scanned, located.value)
                       else old(objects))
        && outcome == (if located.Success? then Recorded else Failed(located.error))
      ensures newObjectName == old(newObjectName) && showAddDialog == old(showAddDialog)
    {
      var located := GetCurrentLocation(supported, reading, now, fixedText);
      if located.Success? {
        CommitKeepsConsistent(objects, scanned, located.value);
        objects := CommitScan(objects, scanned, located.value);
        outcome := Recorded;
      } else {
        outcome := Failed(located.error);
      }
      isScanning := false;
    }

    /** One whole run of `handleScanQR` with nothing happening during the
        wait: the flag ends lowered whatever the provider answered. */
    method HandleScanQR(scanned: string, supported: bool, reading: Result<Coordinates, GeoError>,
                        now: int, fixedText: string) returns (outcome: ScanOutcome)
      requires Valid()
      modifies this
      ensures Valid() && !isScanning
      ensures var located := GetCurrentLocation(supported, reading, now, fixedText);
        && objects == (if located.Success? then CommitScan(old(objects), scanned, located.value)
                       else old(objects))
        && outcome == (if located.Success? then Recorded else Failed(located.error))
      ensures newObjectName == old(newObjectName) && showAddDialog == old(showAddDialog)
    {
      BeginScan();
      outcome := FinishScan(scanned, supported, reading, now, fixedText);
    }
  }
}
