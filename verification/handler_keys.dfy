/**
 * The names under which "handler already done" facts are stored:
 * `<eventId>:<eventType>:<index>`. The protocol relies on two different deliveries never sharing
 * a name; that holds for every event id as long as event types contain no colon.
 */
module HandlerKeys {

  const DIGITS: string := "0123456789"

  /** Decimal rendering of a handler's position, as a template literal prints it. */
  function Decimal(n: nat): (text: string)
    ensures |text| > 0
    ensures forall i :: 0 <= i < |text| ==> text[i] in DIGITS
  {
    if n < 10 then [DIGITS[n]] else Decimal(n / 10) + [DIGITS[n % 10]]
  }

  function HandlerKey(eventId: string, eventType: string, index: nat): string {
    eventId + ":" + eventType + ":" + Decimal(index)
  }

  predicate ColonFree(text: string) { ':' !in text }

  function Value(text: string): nat
    requires forall i :: 0 <= i < |text| ==> text[i] in DIGITS
  {
    if text == [] then 0
    else 10 * Value(text[..|text| - 1]) + DigitValue(text[|text| - 1])
  }

  function DigitValue(c: char): (d: nat)
    requires c in DIGITS
    ensures d < 10 && DIGITS[d] == c
  {
    var d: nat :| d < |DIGITS| && DIGITS[d] == c;
    d
  }

  /** Reading the rendering back gives the number. */
  lemma {:induction false} ValueOfDecimal(n: nat)
    ensures Value(Decimal(n)) == n
  {
    if n >= 10 {
      ValueOfDecimal(n / 10);
      assert Decimal(n)[..|Decimal(n)| - 1] == Decimal(n / 10);
    } else {
      assert Decimal(n)[..0] == [];
    }
  }

  /** Where the last colon sits is determined by the text: two such splits are the same split. */
  lemma LastColonUnique(a: string, x: string, b: string, y: string)
    requires a + ":" + x == b + ":" + y
    requires ColonFree(x) && ColonFree(y)
    ensures a == b && x == y
  {
    var s := a + ":" + x;
    assert s[|a|] == ':' && s[|b|] == ':';
    assert forall j :: |a| < j < |s| ==> s[j] == x[j - |a| - 1];
    assert forall j :: |b| < j < |s| ==> s[j] == y[j - |b| - 1];
    assert a == s[..|a|] && b == s[..|b|];
    assert x == s[|a| + 1..] && y == s[|b| + 1..];
  }

  /** Two names are equal exactly when the positions and the joined event ids and types are. */
  lemma HandlerKeyEqualIff(e1: string, t1: string, i1: nat, e2: string, t2: string, i2: nat)
    ensures HandlerKey(e1, t1, i1) == HandlerKey(e2, t2, i2) <==> i1 == i2 && e1 + ":" + t1 == e2 + ":" + t2
  {
    if HandlerKey(e1, t1, i1) == HandlerKey(e2, t2, i2) {
      LastColonUnique(e1 + ":" + t1, Decimal(i1), e2 + ":" + t2, Decimal(i2));
      ValueOfDecimal(i1);
      ValueOfDecimal(i2);
    }
  }

  /** Different (event, type, position) triples have different names, whatever the event ids are. */
  lemma HandlerKeyInjective(e1: string, t1: string, i1: nat, e2: string, t2: string, i2: nat)
    requires ColonFree(t1) && ColonFree(t2)
    requires HandlerKey(e1, t1, i1) == HandlerKey(e2, t2, i2)
    ensures e1 == e2 && t1 == t2 && i1 == i2
  {
    HandlerKeyEqualIff(e1, t1, i1, e2, t2, i2);
    LastColonUnique(e1, t1, e2, t2);
  }

  /** With a colon in an event type, two unrelated deliveries can share a name. */
  lemma ColonInTypeCollides()
    ensures HandlerKey("a", "b:c", 0) == HandlerKey("a:b", "c", 0)
  {
    assert HandlerKey("a", "b:c", 0) == "a:b:c:" + Decimal(0) == HandlerKey("a:b", "c", 0);
  }
}
