/** How a piece of hardware gets its name, and finds it again whichever driver reports it. */
module HardwareIdentity {

  import opened Numerals
  import opened Optional

  // ---------- normal forms of strings ----------

  predicate LowerLetter(c: char) { 'a' <= c <= 'z' }

  predicate Word(c: char) { LowerLetter(c) || '0' <= c <= '9' || c == '_' }

  function LowerChar(c: char): char {
    if 'A' <= c <= 'Z' then c - 'A' + 'a' else c
  }

  function Lower(s: string): string {
    seq(|s|, i requires 0 <= i < |s| => LowerChar(s[i]))
  }

  /** Letters and digits only. */
  function IdentityPart(s: string): (part: string)
    ensures forall c :: c in part ==> Word(c) && c != '_'
  {
    if s == "" then ""
    else
      var c := LowerChar(s[|s| - 1]);
      IdentityPart(s[..|s| - 1]) + if Word(c) && c != '_' then [c] else ""
  }

  function NormalizedMac(s: string): string {
    var compact := IdentityPart(s);
    if |compact| == 12 then compact else ""
  }

  predicate ContainsAt(s: string, token: string, i: nat) {
    i + |token| <= |s| && s[i..i + |token|] == token
  }

  predicate Contains(s: string, token: string) {
    exists i :: 0 <= i <= |s| && ContainsAt(s, token, i)
  }

  const ALIASES := ["lucid", "ids", "basler", "alliedvision", "teledyneflir"]

  function FirstAlias(s: string, aliases: seq<string>): string
    decreases aliases
  {
    if aliases == [] then s
    else if Contains(s, aliases[0]) then aliases[0]
    else FirstAlias(s, aliases[1..])
  }

  function VendorIdentity(s: string): string {
    FirstAlias(IdentityPart(s), ALIASES)
  }

  // ---------- sensor names ----------

  function Worded(s: string): string {
    seq(|s|, i requires 0 <= i < |s| => if Word(s[i]) then s[i] else '_')
  }

  function Collapsed(s: string): string {
    if |s| < 2 then s
    else if s[0] == '_' == s[1] then Collapsed(s[1..])
    else [s[0]] + Collapsed(s[1..])
  }

  function Stripped(s: string): string
    decreases |s|
  {
    if s == "" then s
    else if s[0] == '_' then Stripped(s[1..])
    else if s[|s| - 1] == '_' then Stripped(s[..|s| - 1])
    else s
  }

  function StableSensorId(provider: string, serial: string): string {
    var value := Stripped(Collapsed(Worded(Lower(provider + "_" + serial))));
    if value == "" || !LowerLetter(value[0]) then "sensor_" + value else value
  }

  predicate RosSafe(id: string) {
    id != "" && LowerLetter(id[0]) && forall c :: c in id ==> Word(c)
  }

  predicate Words(s: string) {
    forall c :: c in s ==> Word(c)
  }

  lemma {:induction false} CollapsedWords(s: string)
    requires Words(s)
    ensures Words(Collapsed(s))
    decreases |s|
  {
    if |s| >= 2 {
      CollapsedWords(s[1..]);
      assert s[0] in s;
    }
  }

  lemma {:induction false} StrippedWords(s: string)
    requires Words(s)
    ensures Words(Stripped(s))
    decreases |s|
  {
    if s != "" {
      if s[0] == '_' {
        StrippedWords(s[1..]);
      } else if s[|s| - 1] == '_' {
        StrippedWords(s[..|s| - 1]);
      }
    }
  }

  /** Whatever a driver reports, the generated name is one ROS accepts. */
  lemma StableIdIsRosSafe(provider: string, serial: string)
    ensures RosSafe(StableSensorId(provider, serial))
  {
    var worded := Worded(Lower(provider + "_" + serial));
    assert Words(worded);
    CollapsedWords(worded);
    StrippedWords(Collapsed(worded));
    var value := Stripped(Collapsed(worded));
    if value == "" || !LowerLetter(value[0]) {
      var prefix := "sensor_";
      assert Words(prefix) by {
        assert forall c :: c in prefix ==> c in {'s', 'e', 'n', 'o', 'r', '_'};
      }
      assert (prefix + value)[0] == 's';
    }
  }

  // ---------- hardware and the catalogue ----------

  datatype Hardware = Hardware(
    provider: string, kind: string, vendor: string, model: string, serial: string, mac: string)

  datatype HardwareKey = ByMac(mac: string) | ByVendorSerial(vendor: string, serial: string)

  function KeyOf(h: Hardware): HardwareKey {
    var mac := NormalizedMac(h.mac);
    if mac != "" then ByMac(mac) else ByVendorSerial(VendorIdentity(h.vendor), IdentityPart(h.serial))
  }

  function NewSensorId(o: Hardware): string {
    if o.kind == "camera" && o.provider == "genicam" then StableSensorId("camera_" + o.vendor, o.serial)
    else StableSensorId(o.provider, o.serial)
  }

  datatype State = Observed | Enrolled | Archived | Retired

  /** One catalogue entry; the catalogue keeps the order in which entries were added. */
  datatype Entry = Entry(id: string, hardware: Hardware, state: State)

  predicate SameMac(e: Entry, mac: string) {
    NormalizedMac(e.hardware.mac) == mac
  }

  predicate SameVendorSerial(e: Entry, o: Hardware) {
    VendorIdentity(e.hardware.vendor) == VendorIdentity(o.vendor) &&
    IdentityPart(e.hardware.serial) == IdentityPart(o.serial)
  }

  /** The first place where a test holds. */
  function First(known: seq<Entry>, test: Entry -> bool): (at: Option<nat>)
    ensures at.None? ==> forall e :: e in known ==> !test(e)
    ensures at.Some? ==> at.value < |known| && test(known[at.value])
    ensures at.Some? ==> forall k :: 0 <= k < at.value ==> !test(known[k])
  {
    if known == [] then None
    else
      var n := |known| - 1;
      var earlier := First(known[..n], test);
      if earlier.Some? then earlier else if test(known[n]) then Some(n) else None
  }

  function Find(known: seq<Entry>, id: string): Option<nat> {
    First(known, (e: Entry) => e.id == id)
  }

  predicate Has(known: seq<Entry>, id: string) {
    Find(known, id).Some?
  }

  /** By address when there is one, else by vendor and serial number. */
  function Match(known: seq<Entry>, o: Hardware): Option<nat> {
    var mac := NormalizedMac(o.mac);
    var byMac := if mac != "" then First(known, (e: Entry) => SameMac(e, mac)) else None;
    if byMac.Some? then byMac else First(known, (e: Entry) => SameVendorSerial(e, o))
  }

  function SuffixedId(known: seq<Entry>, o: Hardware): string {
    var mac := NormalizedMac(o.mac);
    NewSensorId(o) + "_" + if mac != "" then mac[|mac| - 6..] else Decimal(|known| + 1)
  }

  function SensorIdFor(known: seq<Entry>, o: Hardware): string {
    var at := Match(known, o);
    if at.Some? then known[at.value].id
    else if !Has(known, NewSensorId(o)) then NewSensorId(o)
    else SuffixedId(known, o)
  }

  predicate Catalogued(known: seq<Entry>) {
    (forall i, j :: 0 <= i < j < |known| ==> known[i].id != known[j].id)
  }

  lemma {:induction false} DecimalWords(n: nat)
    ensures Words(Decimal(n))
    decreases n
  {
    if n >= 10 {
      DecimalWords(n / 10);
    }
  }

  lemma ResolvedIdIsRosSafe(known: seq<Entry>, o: Hardware)
    requires forall e :: e in known ==> RosSafe(e.id)
    ensures RosSafe(SensorIdFor(known, o))
  {
    StableIdIsRosSafe(o.provider, o.serial);
    StableIdIsRosSafe("camera_" + o.vendor, o.serial);
    DecimalWords(|known| + 1);
    var id := NewSensorId(o);
    var mac := NormalizedMac(o.mac);
    assert Words(mac);
    assert RosSafe(id);
    assert SuffixedId(known, o)[0] == id[0];
  }

  // ---------- what the normal forms ignore ----------

  lemma {:induction false} CaseIsIgnored(s: string)
    ensures IdentityPart(Lower(s)) == IdentityPart(s)
    decreases |s|
  {
    if s != "" {
      CaseIsIgnored(s[..|s| - 1]);
      assert Lower(s)[..|s| - 1] == Lower(s[..|s| - 1]);
    }
  }

  lemma {:induction false} IdentityPartCat(s: string, t: string)
    ensures IdentityPart(s + t) == IdentityPart(s) + IdentityPart(t)
    decreases |t|
  {
    if t == "" {
      assert s + t == s;
    } else {
      var n := |t| - 1;
      assert (s + t)[..|s| + n] == s + t[..n];
      IdentityPartCat(s, t[..n]);
    }
  }

  lemma SeparatorIsDropped(s: string, c: char)
    requires !('a' <= c <= 'z') && !('A' <= c <= 'Z') && !('0' <= c <= '9')
    ensures IdentityPart(s + [c]) == IdentityPart(s)
  {
    assert (s + [c])[..|s|] == s;
  }

  lemma SeparatorsAreIgnored(s: string, c: char, t: string)
    requires !('a' <= c <= 'z') && !('A' <= c <= 'Z') && !('0' <= c <= '9')
    ensures IdentityPart(s + [c] + t) == IdentityPart(s + t)
  {
    SeparatorIsDropped(s, c);
    SameFront(s + [c], s, t);
  }

  lemma SameFront(s: string, u: string, t: string)
    requires IdentityPart(s) == IdentityPart(u)
    ensures IdentityPart(s + t) == IdentityPart(u + t)
  {
    IdentityPartCat(s, t);
    IdentityPartCat(u, t);
  }

  predicate SameIdentity(s: string, t: string) {
    IdentityPart(s) == IdentityPart(t) && NormalizedMac(s) == NormalizedMac(t) && VendorIdentity(s) == VendorIdentity(t)
  }

  /** Hardware addresses, vendors and serial numbers are the same however they are capitalised and wherever they
      are divided by characters that are neither letters nor digits. */
  lemma WritingDoesNotMatter(s: string, c: char, t: string)
    requires !('a' <= c <= 'z') && !('A' <= c <= 'Z') && !('0' <= c <= '9')
    ensures SameIdentity(s + [c] + t, s + t) && SameIdentity(Lower(s + t), s + t)
  {
    SeparatorsAreIgnored(s, c, t);
    CaseIsIgnored(s + t);
  }

  lemma {:induction false} FirstAliasIs(s: string, aliases: seq<string>, k: nat)
    requires k <= |aliases| && forall i :: 0 <= i < k ==> !Contains(s, aliases[i])
    ensures FirstAlias(s, aliases) == if k == |aliases| then s
                                      else if Contains(s, aliases[k]) then aliases[k] else FirstAlias(s, aliases[k..])
    decreases k
  {
    if k > 0 {
      FirstAliasIs(s, aliases[1..], k - 1);
      assert aliases[1..][k - 1..] == aliases[k..];
    } else {
      assert aliases[0..] == aliases;
    }
  }

  predicate NoneBefore(vendor: string, k: nat)
    requires k <= |ALIASES|
  {
    forall i :: 0 <= i < k ==> !Contains(vendor, ALIASES[i])
  }

  /** Every spelling that contains one of the five vendor names stands for that vendor, the first in the list; any
      other stands for itself. */
  lemma VendorIsExact(s: string)
    ensures var vendor := IdentityPart(s);
            && (forall k: nat :: k < |ALIASES| && NoneBefore(vendor, k) && Contains(vendor, ALIASES[k]) ==>
                  VendorIdentity(s) == ALIASES[k])
            && (NoneBefore(vendor, |ALIASES|) ==> VendorIdentity(s) == vendor)
  {
    var vendor := IdentityPart(s);
    forall k: nat | k <= |ALIASES| && NoneBefore(vendor, k)
      ensures k < |ALIASES| && Contains(vendor, ALIASES[k]) ==> VendorIdentity(s) == ALIASES[k]
      ensures k == |ALIASES| ==> VendorIdentity(s) == vendor
    {
      FirstAliasIs(vendor, ALIASES, k);
    }
  }

  /** An observation belongs to the first entry with its hardware address, if there is one, else to the first of its
      vendor and serial number. */
  lemma MatchIsExact(known: seq<Entry>, o: Hardware, i: nat)
    ensures var mac := NormalizedMac(o.mac);
            var byMac := mac != "" && exists e :: e in known && NormalizedMac(e.hardware.mac) == mac;
            Match(known, o) == Some(i) <==>
              && i < |known|
              && (if byMac then NormalizedMac(known[i].hardware.mac) == mac else SameVendorSerial(known[i], o))
              && forall k :: 0 <= k < i ==>
                   !(if byMac then NormalizedMac(known[k].hardware.mac) == mac else SameVendorSerial(known[k], o))
  {
    var mac := NormalizedMac(o.mac);
    if mac != "" && exists e :: e in known && NormalizedMac(e.hardware.mac) == mac {
      FirstIsExact(known, (e: Entry) => SameMac(e, mac), i);
    } else {
      FirstNone(known, (e: Entry) => mac != "" && SameMac(e, mac));
      FirstIsExact(known, (e: Entry) => SameVendorSerial(e, o), i);
    }
  }

  lemma FirstIsExact(known: seq<Entry>, test: Entry -> bool, i: nat)
    ensures First(known, test) == Some(i) <==> i < |known| && test(known[i]) && forall k :: 0 <= k < i ==> !test(known[k])
  {
    if i < |known| && test(known[i]) && forall k :: 0 <= k < i ==> !test(known[k]) {
      FirstIs(known, test, i);
    }
  }

  /** Two cameras have one key exactly when they have the same hardware address, or neither has one and vendor and
      serial number are the same. */
  lemma SameKeyIsExact(a: Hardware, b: Hardware)
    ensures KeyOf(a) == KeyOf(b) <==>
      if NormalizedMac(a.mac) != "" then NormalizedMac(a.mac) == NormalizedMac(b.mac)
      else NormalizedMac(b.mac) == "" && VendorIdentity(a.vendor) == VendorIdentity(b.vendor)
           && IdentityPart(a.serial) == IdentityPart(b.serial)
  {
  }

  lemma TakenNameIsSuffixed(known: seq<Entry>, o: Hardware)
    requires Match(known, o) == None && Has(known, NewSensorId(o))
    ensures SensorIdFor(known, o) ==
      NewSensorId(o) + "_" + if NormalizedMac(o.mac) != "" then NormalizedMac(o.mac)[6..] else Decimal(|known| + 1)
  {
  }

  lemma SameFrontSameRest(front: string, s: string, t: string)
    ensures front + s == front + t <==> s == t
  {
    assert (front + s)[|front|..] == s && (front + t)[|front|..] == t;
  }

  /** When a name is taken, hardware addresses make different names exactly when their last six digits differ. */
  lemma SuffixTellsApart(known: seq<Entry>, a: Hardware, b: Hardware)
    requires Match(known, a) == None && Match(known, b) == None && NewSensorId(a) == NewSensorId(b)
    requires Has(known, NewSensorId(a)) && NormalizedMac(a.mac) != "" && NormalizedMac(b.mac) != ""
    ensures SensorIdFor(known, a) == SensorIdFor(known, b) <==> NormalizedMac(a.mac)[6..] == NormalizedMac(b.mac)[6..]
  {
    TakenNameIsSuffixed(known, a);
    TakenNameIsSuffixed(known, b);
    SameFrontSameRest(NewSensorId(a) + "_", NormalizedMac(a.mac)[6..], NormalizedMac(b.mac)[6..]);
  }

  // ---------- recording what was seen ----------

  function Fresher(seen: string, was: string): string {
    if seen != "" then seen else was
  }

  /** A sighting refreshes everything but the driver first seen and the serial number. */
  function Resighted(h: Hardware, o: Hardware): Hardware {
    Hardware(h.provider, Fresher(o.kind, h.kind), Fresher(o.vendor, h.vendor), Fresher(o.model, h.model), h.serial,
             Fresher(o.mac, h.mac))
  }

  function Recorded(known: seq<Entry>, o: Hardware, isEnrolled: bool): seq<Entry> {
    var id := SensorIdFor(known, o);
    var at := Find(known, id);
    if at.None? then known + [Entry(id, o, if isEnrolled then Enrolled else Observed)]
    else
      var e := known[at.value];
      known[at.value := Entry(id, Resighted(e.hardware, o), if isEnrolled then Enrolled else e.state)]
  }

  lemma {:induction false} FirstIs(known: seq<Entry>, test: Entry -> bool, i: nat)
    requires i < |known| && test(known[i]) && forall k :: 0 <= k < i ==> !test(known[k])
    ensures First(known, test) == Some(i)
  {
    assert known[i] in known;
  }

  lemma FirstNone(known: seq<Entry>, test: Entry -> bool)
    requires forall e :: e in known ==> !test(e)
    ensures First(known, test) == None
  {
  }

  /** Resolving the same observation again gives the same name, however it was matched or made. */
  lemma ResolutionIsStable(known: seq<Entry>, o: Hardware, isEnrolled: bool)
    requires Catalogued(known)
    ensures SensorIdFor(Recorded(known, o, isEnrolled), o) == SensorIdFor(known, o)
  {
    var after := Recorded(known, o, isEnrolled);
    var at := Match(known, o);
    if at.Some? {
      MatchedStaysMatched(known, o, isEnrolled, at.value);
    } else {
      UnmatchedIsStable(known, o, isEnrolled);
    }
  }

  lemma MatchedStaysMatched(known: seq<Entry>, o: Hardware, isEnrolled: bool, i: nat)
    requires Catalogued(known) && Match(known, o) == Some(i)
    ensures SensorIdFor(Recorded(known, o, isEnrolled), o) == known[i].id
  {
    var after := Recorded(known, o, isEnrolled);
    var mac := NormalizedMac(o.mac);
    FirstIs(known, (e: Entry) => e.id == known[i].id, i);
    assert Find(known, known[i].id) == Some(i);
    assert after == known[i := after[i]] && after[i].id == known[i].id;
    if mac != "" {
      FirstIs(after, (e: Entry) => SameMac(e, mac), i);
    } else {
      FirstIs(after, (e: Entry) => SameVendorSerial(e, o), i);
    }
  }

  lemma UnmatchedIsStable(known: seq<Entry>, o: Hardware, isEnrolled: bool)
    requires Catalogued(known) && Match(known, o) == None
    ensures SensorIdFor(Recorded(known, o, isEnrolled), o) == SensorIdFor(known, o)
  {
    var after := Recorded(known, o, isEnrolled);
    var at := Find(known, SensorIdFor(known, o));
    if at.None? {
      NewEntryMatches(known, o, after[|known|]);
    } else if NormalizedMac(o.mac) != "" || SameVendorSerial(after[at.value], o) {
      MergedEntryMatches(known, o, after[at.value], at.value);
    } else {
      StrangerStays(known, o, after[at.value], at.value);
    }
  }

  lemma NewEntryMatches(known: seq<Entry>, o: Hardware, e: Entry)
    requires Match(known, o) == None && e.hardware == o
    ensures SensorIdFor(known + [e], o) == e.id
  {
    var mac := NormalizedMac(o.mac);
    if mac != "" {
      FirstIs(known + [e], (e: Entry) => SameMac(e, mac), |known|);
    } else {
      FirstIs(known + [e], (e: Entry) => SameVendorSerial(e, o), |known|);
    }
  }

  lemma MergedEntryMatches(known: seq<Entry>, o: Hardware, e: Entry, i: nat)
    requires Match(known, o) == None && i < |known|
    requires if NormalizedMac(o.mac) != "" then SameMac(e, NormalizedMac(o.mac)) else SameVendorSerial(e, o)
    ensures SensorIdFor(known[i := e], o) == e.id
  {
    var mac := NormalizedMac(o.mac);
    if mac != "" {
      FirstIs(known[i := e], (e: Entry) => SameMac(e, mac), i);
    } else {
      FirstIs(known[i := e], (e: Entry) => SameVendorSerial(e, o), i);
    }
  }

  lemma StrangerStays(known: seq<Entry>, o: Hardware, e: Entry, i: nat)
    requires Match(known, o) == None && i < |known| && e.id == known[i].id
    requires NormalizedMac(o.mac) == "" && !SameVendorSerial(e, o)
    ensures SensorIdFor(known[i := e], o) == SensorIdFor(known, o)
  {
    FirstNone(known[i := e], (e: Entry) => SameVendorSerial(e, o));
    FindKept(known, known[i := e], NewSensorId(o));
  }

  lemma FindKept(known: seq<Entry>, after: seq<Entry>, id: string)
    requires |after| == |known| && forall k :: 0 <= k < |known| ==> after[k].id == known[k].id
    ensures Find(after, id) == Find(known, id)
  {
    var at := Find(known, id);
    if at.Some? {
      FirstIs(after, (e: Entry) => e.id == id, at.value);
    } else {
      forall e | e in after
        ensures e.id != id
      {
        var k :| 0 <= k < |after| && after[k] == e;
        assert known[k] in known;
      }
    }
  }

  predicate SameHardware(e: Entry, o: Hardware) {
    SameVendorSerial(e, o) || (NormalizedMac(o.mac) != "" && SameMac(e, NormalizedMac(o.mac)))
  }

  /** A sighting is booked on the entry of other hardware exactly when no entry is of its own hardware, its
      name is taken and so is its suffixed name. */
  lemma MergedExactlyWhenSuffixTaken(known: seq<Entry>, o: Hardware)
    requires Catalogued(known)
    ensures var at := Find(known, SensorIdFor(known, o));
            at.Some? && !SameHardware(known[at.value], o) <==>
              && (forall e :: e in known ==> !SameHardware(e, o))
              && Has(known, NewSensorId(o)) && Has(known, SuffixedId(known, o))
  {
    var at := Match(known, o);
    if at.Some? {
      FirstIs(known, (e: Entry) => e.id == known[at.value].id, at.value);
      assert known[at.value] in known && SameHardware(known[at.value], o);
    } else {
      var found := Find(known, SensorIdFor(known, o));
      if found.Some? {
        assert known[found.value] in known;
      }
    }
  }

  lemma {:induction false} ShortNamesHaveNoAlias(s: string, aliases: seq<string>)
    requires |s| < 3 && forall a :: a in aliases ==> |a| >= 3
    ensures FirstAlias(s, aliases) == s
    decreases aliases
  {
    if aliases != [] {
      assert aliases[0] in aliases;
      ShortNamesHaveNoAlias(s, aliases[1..]);
    }
  }

  lemma ShortVendor(s: string)
    requires |s| == 1 && LowerLetter(s[0])
    ensures VendorIdentity(s) == s
  {
    assert s[..0] == "";
    assert IdentityPart(s) == s;
    ShortNamesHaveNoAlias(s, ALIASES);
  }
}
