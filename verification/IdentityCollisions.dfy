/** Names of cameras are joined from vendor and serial number, so three cameras can be named alike. */
module IdentityCollisions {

  import opened HardwareIdentity
  import opened Inventories
  import opened Numerals
  import opened Optional

  // ---------- names that are already clean ----------

  predicate Single(s: string) {
    forall i :: 0 <= i < |s| - 1 ==> !(s[i] == '_' == s[i + 1])
  }

  /** Words joined by single underscores, starting with a letter. */
  predicate Clean(s: string) {
    s != "" && LowerLetter(s[0]) && s[|s| - 1] != '_' && Words(s) && Single(s)
  }

  /** A part between underscores. */
  predicate Plain(s: string) {
    s != "" && forall c :: c in s ==> Word(c) && c != '_'
  }

  lemma CleanJoins(s: string, part: string)
    requires Clean(s) && Plain(part)
    ensures Clean(s + "_" + part)
  {
    var joined := s + "_" + part;
    assert part[0] in part && part[|part| - 1] in part;
    forall i | 0 <= i < |joined| - 1
      ensures !(joined[i] == '_' == joined[i + 1])
    {
      if i + 1 < |s| {
        assert joined[i] == s[i] && joined[i + 1] == s[i + 1];
      } else if i + 1 > |s| {
        assert joined[i + 1] == part[i - |s|] && part[i - |s|] in part;
      }
    }
  }

  lemma {:induction false} CollapsedKeeps(s: string)
    requires Single(s)
    ensures Collapsed(s) == s
    decreases |s|
  {
    if |s| >= 2 {
      CollapsedKeeps(s[1..]);
      assert s == [s[0]] + s[1..];
    }
  }

  lemma WordsKeep(s: string)
    requires Words(s)
    ensures Lower(s) == s && Worded(s) == s
  {
    assert forall i :: 0 <= i < |s| ==> s[i] in s;
  }

  lemma StrippedKeeps(s: string)
    requires Clean(s)
    ensures Stripped(s) == s
  {
  }

  lemma CleanNormalizes(s: string)
    requires Clean(s)
    ensures Stripped(Collapsed(Worded(Lower(s)))) == s
  {
    WordsKeep(s);
    CollapsedKeeps(s);
    StrippedKeeps(s);
  }

  /** A clean name is its own stable identifier. */
  lemma CleanNameStays(provider: string, serial: string)
    requires Clean(provider + "_" + serial)
    ensures StableSensorId(provider, serial) == provider + "_" + serial
  {
    CleanNormalizes(provider + "_" + serial);
  }

  lemma {:induction false} CollapsedIsSingle(s: string)
    ensures Single(Collapsed(s)) && (s != "" ==> Collapsed(s) != "" && Collapsed(s)[0] == s[0])
    decreases |s|
  {
    if |s| >= 2 {
      CollapsedIsSingle(s[1..]);
    }
  }

  /** Without an underscore at either end, and otherwise as it was. */
  lemma {:induction false} StrippedIsTight(s: string)
    requires Single(s)
    ensures var r := Stripped(s);
            Single(r) && (r != "" ==> r[0] != '_' && r[|r| - 1] != '_')
    decreases |s|
  {
    if s != "" {
      if s[0] == '_' {
        StrippedIsTight(s[1..]);
      } else if s[|s| - 1] == '_' {
        StrippedIsTight(s[..|s| - 1]);
      }
    }
  }

  /** What is left of a name without its outer and doubled underscores. */
  function Core(provider: string, serial: string): string {
    Stripped(Collapsed(Worded(Lower(provider + "_" + serial))))
  }

  lemma CoreIsTight(provider: string, serial: string)
    ensures var v := Core(provider, serial); Single(v) && (v != "" ==> v[0] != '_' && v[|v| - 1] != '_')
  {
    var worded := Worded(Lower(provider + "_" + serial));
    CollapsedIsSingle(worded);
    StrippedIsTight(Collapsed(worded));
  }

  lemma TightIsClean(value: string, id: string)
    requires Single(value) && (value != "" ==> value[0] != '_' && value[|value| - 1] != '_') && RosSafe(id)
    requires id == if value == "" || !LowerLetter(value[0]) then "sensor_" + value else value
    ensures Clean(id) || id == "sensor_"
  {
    if value == "" {
      assert "sensor_" + value == "sensor_";
    } else if !LowerLetter(value[0]) {
      PrefixedIsSingle(value);
    }
  }

  /** Every generated name consists of words joined by single underscores and starts with a letter, so it is its own
      generated name; only a name without a single letter or digit is left as the bare prefix. */
  lemma StableIdIsClean(provider: string, serial: string)
    ensures var id := StableSensorId(provider, serial); Clean(id) || id == "sensor_"
  {
    StableIdIsRosSafe(provider, serial);
    CoreIsTight(provider, serial);
    TightIsClean(Core(provider, serial), StableSensorId(provider, serial));
  }

  lemma PrefixedIsSingle(value: string)
    requires value != "" && Single(value) && value[0] != '_' && value[|value| - 1] != '_'
    ensures var id := "sensor_" + value; Single(id) && id[|id| - 1] != '_'
  {
    var id := "sensor_" + value;
    forall i | 0 <= i < |id| - 1
      ensures !(id[i] == '_' == id[i + 1])
    {
      if i >= 7 {
        assert id[i] == value[i - 7] && id[i + 1] == value[i - 6];
      }
    }
  }

  // ---------- identities of joined words ----------

  lemma {:induction false} PlainIsIdentity(s: string)
    requires forall c :: c in s ==> Word(c) && c != '_'
    ensures IdentityPart(s) == s
    decreases |s|
  {
    if s != "" {
      var n := |s| - 1;
      PlainIsIdentity(s[..n]);
      assert s[n] in s && s == s[..n] + [s[n]];
    }
  }

  /** Underscores do not tell hardware apart. */
  lemma JoinedIdentity(s: string, part: string)
    requires Plain(part)
    ensures IdentityPart(s + "_" + part) == IdentityPart(s) + part
  {
    SeparatorIsDropped(s, '_');
    PlainIsIdentity(part);
    IdentityPartCat(s + "_", part);
  }

  // ---------- the three cameras ----------

  function Camera(vendor: string, serial: string): Hardware {
    Hardware("genicam", "camera", vendor, "", serial, "")
  }

  function One(v: string, x: string, y: string): Hardware { Camera(v, x + "_" + y) }
  function Two(v: string, x: string, y: string): Hardware { Camera(v, x + "_" + y + "_" + "3") }
  function Three(v: string, x: string, y: string): Hardware { Camera(v + "_" + x, y) }

  function NameOf(v: string, x: string, y: string): string {
    "camera" + "_" + v + "_" + x + "_" + y
  }

  lemma NameIsClean(v: string, x: string, y: string)
    requires Plain(v) && Plain(x) && Plain(y)
    ensures Clean(NameOf(v, x, y)) && Clean(NameOf(v, x, y) + "_" + "3")
  {
    assert Clean("camera");
    CleanJoins("camera", v);
    CleanJoins("camera" + "_" + v, x);
    CleanJoins("camera" + "_" + v + "_" + x, y);
    CleanJoins(NameOf(v, x, y), "3");
  }

  lemma Prefix()
    ensures "camera_" == "camera" + "_"
  {
  }

  /** However the underscores are divided between vendor and serial number, the name is the same. */
  lemma Names(v: string, x: string, y: string)
    requires Plain(v) && Plain(x) && Plain(y)
    ensures NewSensorId(One(v, x, y)) == NewSensorId(Three(v, x, y)) == NameOf(v, x, y)
    ensures NewSensorId(Two(v, x, y)) == NameOf(v, x, y) + "_" + "3"
  {
    NameIsClean(v, x, y);
    Prefix();
    var name := NameOf(v, x, y);
    assert ("camera_" + v) + "_" + (x + "_" + y) == name;
    assert ("camera_" + (v + "_" + x)) + "_" + y == name;
    assert ("camera_" + v) + "_" + (x + "_" + y + "_" + "3") == name + "_" + "3";
    CleanNameStays("camera_" + v, x + "_" + y);
    CleanNameStays("camera_" + (v + "_" + x), y);
    CleanNameStays("camera_" + v, x + "_" + y + "_" + "3");
  }

  /** The serial numbers of the first two differ, and the third has another vendor. */
  lemma Strangers(v: string, x: string, y: string)
    requires Plain(v) && Plain(x) && Plain(y) && VendorIdentity(v) != VendorIdentity(v + "_" + x)
    ensures !SameVendorSerial(Entry("", One(v, x, y), Observed), Two(v, x, y))
    ensures !SameVendorSerial(Entry("", One(v, x, y), Observed), Three(v, x, y))
    ensures !SameVendorSerial(Entry("", Two(v, x, y), Observed), Three(v, x, y))
  {
    JoinedIdentity(x + "_" + y, "3");
  }

  /** A camera without a hardware address that nothing matches and whose name is free gets a new entry. */
  lemma FirstSighting(known: seq<Entry>, o: Hardware)
    requires NormalizedMac(o.mac) == "" && forall e :: e in known ==> !SameVendorSerial(e, o) && e.id != NewSensorId(o)
    ensures Recorded(known, o, false) == known + [Entry(NewSensorId(o), o, Observed)]
  {
    FirstNone(known, (e: Entry) => SameVendorSerial(e, o));
    FirstNone(known, (e: Entry) => e.id == NewSensorId(o));
  }

  lemma TwoSightings(first: Entry, second: Entry)
    requires NormalizedMac(first.hardware.mac) == NormalizedMac(second.hardware.mac) == ""
    requires first == Entry(NewSensorId(first.hardware), first.hardware, Observed)
    requires second == Entry(NewSensorId(second.hardware), second.hardware, Observed)
    requires first.id != second.id && !SameVendorSerial(first, second.hardware)
    ensures Recorded(Recorded([], first.hardware, false), second.hardware, false) == [first, second]
  {
    FirstSighting([], first.hardware);
    assert [] + [first] == [first];
    FirstSighting([first], second.hardware);
  }

  lemma FirstTwo(v: string, x: string, y: string) returns (known: seq<Entry>)
    requires Plain(v) && Plain(x) && Plain(y) && VendorIdentity(v) != VendorIdentity(v + "_" + x)
    ensures known == Recorded(Recorded([], One(v, x, y), false), Two(v, x, y), false)
    ensures known == [Entry(NameOf(v, x, y), One(v, x, y), Observed),
                      Entry(NameOf(v, x, y) + "_" + "3", Two(v, x, y), Observed)]
  {
    Names(v, x, y);
    Strangers(v, x, y);
    var first := Entry(NameOf(v, x, y), One(v, x, y), Observed);
    var second := Entry(NameOf(v, x, y) + "_" + "3", Two(v, x, y), Observed);
    assert NormalizedMac("") == "";
    assert |first.id| != |second.id|;
    TwoSightings(first, second);
    known := [first, second];
  }

  lemma TwoAreValid(name: string, v: string, x: string, y: string, known: seq<Entry>)
    requires known == [Entry(name, One(v, x, y), Observed), Entry(name + "_" + "3", Two(v, x, y), Observed)]
    requires RosSafe(name) && RosSafe(name + "_" + "3")
    ensures Catalogued(known) && ValidKnown(known)
  {
    assert |name| != |name + "_" + "3"|;
    assert |x + "_" + y| != |x + "_" + y + "_" + "3"|;
  }

  lemma StrangerMatchesNothing(known: seq<Entry>, o: Hardware)
    requires NormalizedMac(o.mac) == "" && forall e :: e in known ==> !SameVendorSerial(e, o)
    ensures Match(known, o) == None
  {
    FirstNone(known, (e: Entry) => SameVendorSerial(e, o));
  }

  lemma FoundAt(known: seq<Entry>, i: nat)
    requires Catalogued(known) && i < |known|
    ensures Find(known, known[i].id) == Some(i)
  {
    FirstIs(known, (e: Entry) => e.id == known[i].id, i);
  }

  /** A stranger whose name and suffixed name are taken resolves to the entry that has the suffixed one. */
  lemma TakenNamesMerge(known: seq<Entry>, o: Hardware, i: nat, j: nat)
    requires Catalogued(known) && i < |known| && j < |known| && NormalizedMac(o.mac) == ""
    requires forall e :: e in known ==> !SameVendorSerial(e, o)
    requires NewSensorId(o) == known[i].id && SuffixedId(known, o) == known[j].id
    ensures Find(known, SensorIdFor(known, o)) == Some(j)
  {
    StrangerMatchesNothing(known, o);
    FoundAt(known, i);
    FoundAt(known, j);
  }

  lemma SecondSuffix(known: seq<Entry>, o: Hardware)
    requires |known| == 2 && NormalizedMac(o.mac) == ""
    ensures SuffixedId(known, o) == NewSensorId(o) + "_" + "3"
  {
    assert Decimal(3) == "3";
  }

  /** Both names of the third camera are taken by cameras that it is not. */
  lemma ThirdIsMerged(v: string, x: string, y: string, known: seq<Entry>)
    requires Plain(v) && Plain(x) && Plain(y) && VendorIdentity(v) != VendorIdentity(v + "_" + x)
    requires known == [Entry(NameOf(v, x, y), One(v, x, y), Observed),
                       Entry(NameOf(v, x, y) + "_" + "3", Two(v, x, y), Observed)]
    ensures Find(known, SensorIdFor(known, Three(v, x, y))) == Some(1)
    ensures !SameHardware(known[1], Three(v, x, y))
  {
    Names(v, x, y);
    Strangers(v, x, y);
    assert |known[0].id| != |known[1].id|;
    SecondSuffix(known, Three(v, x, y));
    TakenNamesMerge(known, Three(v, x, y), 0, 1);
  }

  /** A sighting can be booked on other hardware: after two sightings from an empty catalogue, which leave one
      that validation accepts, the sighting of a camera of another vendor changes the second entry and adds
      none. */
  lemma SightingIsMerged(v: string, x: string, y: string) returns (known: seq<Entry>)
    requires Plain(v) && Plain(x) && Plain(y) && VendorIdentity(v) != VendorIdentity(v + "_" + x)
    ensures known == Recorded(Recorded([], One(v, x, y), false), Two(v, x, y), false)
    ensures Catalogued(known) && ValidKnown(known)
    ensures var o := Three(v, x, y); var at := Find(known, SensorIdFor(known, o));
            && at.Some? && !SameHardware(known[at.value], o)
            && var e := known[at.value];
            && Recorded(known, o, false) == known[at.value := e.(hardware := Resighted(e.hardware, o))]
            && Recorded(known, o, false) != known
  {
    known := FirstTwo(v, x, y);
    Names(v, x, y);
    StableIdIsRosSafe("camera_" + v, x + "_" + y);
    StableIdIsRosSafe("camera_" + v, x + "_" + y + "_" + "3");
    TwoAreValid(NameOf(v, x, y), v, x, y, known);
    ThirdIsMerged(v, x, y, known);
  }

  /** There are such cameras: vendors "a" and "a_b". */
  lemma SightingCanBeMerged() returns (known: seq<Entry>, o: Hardware)
    ensures known == Recorded(Recorded([], One("a", "b", "1"), false), Two("a", "b", "1"), false)
    ensures Catalogued(known) && ValidKnown(known) && o == Three("a", "b", "1")
    ensures var at := Find(known, SensorIdFor(known, o)); at.Some? && !SameHardware(known[at.value], o)
    ensures |Recorded(known, o, false)| == |known| && Recorded(known, o, false) != known
  {
    o := Three("a", "b", "1");
    assert Plain("a") && Plain("b") && Plain("1");
    PlainIsIdentity("a");
    JoinedIdentity("a", "b");
    assert "a" + "b" == "ab";
    ShortNamesHaveNoAlias("a", ALIASES);
    ShortNamesHaveNoAlias("ab", ALIASES);
    known := SightingIsMerged("a", "b", "1");
  }
}
