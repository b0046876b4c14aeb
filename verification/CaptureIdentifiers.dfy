/** The identifiers an operation generates for its goals never collide, so it is never refused for an
    identifier of its own that is still in use. */
module CaptureIdentifiers {

  import opened CaptureOperations
  import opened Numerals
  import opened Sequences

  predicate Digits(s: string) {
    forall c :: c in s ==> '0' <= c <= '9'
  }

  lemma {:induction false} DecimalDigits(n: nat)
    ensures Digits(Decimal(n)) && Decimal(n) != "" && (n >= 10 ==> |Decimal(n)| > 1)
    decreases n
  {
    if n >= 10 {
      DecimalDigits(n / 10);
    }
  }

  lemma {:induction false} DecimalIsInjective(a: nat, b: nat)
    requires Decimal(a) == Decimal(b)
    ensures a == b
    decreases a
  {
    DecimalDigits(a);
    DecimalDigits(b);
    var s := Decimal(a);
    if a >= 10 && b >= 10 {
      assert s[|s| - 1] == ('0' as int + a % 10) as char == ('0' as int + b % 10) as char;
      assert s[..|s| - 1] == Decimal(a / 10) == Decimal(b / 10);
      DecimalIsInjective(a / 10, b / 10);
    } else if a < 10 && b < 10 {
      assert s[0] == ('0' as int + a) as char == ('0' as int + b) as char;
    }
  }

  /** Digits end where the separator begins, whatever the group is called. */
  lemma SeparatorIsFound(x: string, g: string, y: string, h: string)
    requires Digits(x) && Digits(y) && x + "_" + g == y + "_" + h
    ensures x == y && g == h
  {
    var s := x + "_" + g;
    assert s[|x|] == '_' && s[|y|] == '_';
    assert forall k :: 0 <= k < |x| ==> s[k] == x[k] && x[k] in x;
    assert forall k :: 0 <= k < |y| ==> s[k] == y[k] && y[k] in y;
    assert |x| == |y|;
    assert x == s[..|x|] == y && g == s[|x| + 1..] == h;
  }

  lemma CaptureIdIsInjective(prefix: string, a: nat, g: string, b: nat, h: string)
    requires CaptureId(prefix, a, g) == CaptureId(prefix, b, h)
    ensures a == b && g == h
  {
    var n := |prefix| + 1;
    var x, y := Decimal(a), Decimal(b);
    DecimalDigits(a);
    DecimalDigits(b);
    assert CaptureId(prefix, a, g)[n..] == x + "_" + g;
    assert CaptureId(prefix, b, h)[n..] == y + "_" + h;
    SeparatorIsFound(x, g, y, h);
    DecimalIsInjective(a, b);
  }

  /** A generated identifier is safe exactly when prefix and group consist of letters, digits, dots, dashes and
      underscores and the whole is at most 128 characters long; the cycle number never makes it unsafe otherwise. */
  lemma SafeExactly(prefix: string, cycle: nat, group: string)
    ensures SafeIdentifier(CaptureId(prefix, cycle, group)) <==>
      && |prefix| + |Decimal(cycle)| + |group| + 2 <= 128
      && forall c :: c in prefix || c in group ==>
           'a' <= c <= 'z' || 'A' <= c <= 'Z' || '0' <= c <= '9' || c == '_' || c == '-' || c == '.'
  {
    DecimalDigits(cycle);
    var id := CaptureId(prefix, cycle, group);
    forall c
      ensures c in id <==> c in prefix || c == '_' || c in Decimal(cycle) || c in group
    {
    }
  }

  predicate FromCycles(prefix: string, groups: seq<string>, cycles: nat, id: string) {
    exists cycle, i :: 1 <= cycle <= cycles && 0 <= i < |groups| && id == CaptureId(prefix, cycle, groups[i])
  }

  lemma {:induction false} IdsComeFromCycles(kind: Kind, prefix: string, groups: seq<string>, cycles: nat, id: string)
    requires !kind.TestShot? && id in IdsThrough(kind, prefix, groups, cycles)
    ensures FromCycles(prefix, groups, cycles, id)
    decreases cycles
  {
    var ids := CycleIds(prefix, cycles, groups);
    if id in ids {
      var i :| 0 <= i < |ids| && ids[i] == id;
      assert id == CaptureId(prefix, cycles, groups[i]);
    } else {
      IdsComeFromCycles(kind, prefix, groups, cycles - 1, id);
      var cycle, i :| 1 <= cycle <= cycles - 1 && 0 <= i < |groups| && id == CaptureId(prefix, cycle, groups[i]);
    }
  }

  lemma OneCycleIsDistinct(prefix: string, cycle: nat, groups: seq<string>)
    requires Distinct(groups)
    ensures Distinct(CycleIds(prefix, cycle, groups))
  {
    var ids := CycleIds(prefix, cycle, groups);
    forall i, j | 0 <= i < j < |ids|
      ensures ids[i] != ids[j]
    {
      if ids[i] == ids[j] {
        CaptureIdIsInjective(prefix, cycle, groups[i], cycle, groups[j]);
      }
    }
  }

  /** Over all cycles and groups of an operation, every goal has its own identifier. */
  lemma {:induction false} IdentifiersNeverCollide(kind: Kind, prefix: string, groups: seq<string>, cycles: nat)
    requires Distinct(groups) && (kind.TestShot? ==> cycles <= 1)
    ensures Distinct(IdsThrough(kind, prefix, groups, cycles))
    decreases cycles
  {
    if cycles > 0 && !kind.TestShot? {
      var before, last := IdsThrough(kind, prefix, groups, cycles - 1), CycleIds(prefix, cycles, groups);
      IdentifiersNeverCollide(kind, prefix, groups, cycles - 1);
      OneCycleIsDistinct(prefix, cycles, groups);
      forall i, j | 0 <= i < |before| && 0 <= j < |last|
        ensures before[i] != last[j]
      {
        if before[i] == last[j] {
          IdsComeFromCycles(kind, prefix, groups, cycles - 1, before[i]);
          var cycle, k :| 1 <= cycle <= cycles - 1 && 0 <= k < |groups| &&
                          before[i] == CaptureId(prefix, cycle, groups[k]);
          CaptureIdIsInjective(prefix, cycle, groups[k], cycles, groups[j]);
        }
      }
    }
  }
}
