/** Map keys of the form `${userId}:${serviceId}`, as several services build them. */
module CompositeKey {
  import opened Model

  function Digit(d: nat): char
    requires d < 10
  {
    ['0', '1', '2', '3', '4', '5', '6', '7', '8', '9'][d]
  }

  function Decimal(n: nat): (s: string)
    ensures s != ""
  {
    if n < 10 then [Digit(n)] else Decimal(n / 10) + [Digit(n % 10)]
  }

  function UserPrefix(user: UserId): string {
    user + ":"
  }

  function Composite(user: UserId, service: ServiceId): string {
    UserPrefix(user) + Decimal(service)
  }

  /** User ids are UUIDs; all that matters is that they contain no colon. */
  predicate ColonFree(s: string) {
    ':' !in s
  }

  lemma {:induction false} DecimalIsColonFree(n: nat)
    ensures ColonFree(Decimal(n))
  {
    if n >= 10 {
      DecimalIsColonFree(n / 10);
    }
  }

  lemma DecimalLength(n: nat)
    ensures |Decimal(n)| == 1 <==> n < 10
  {
  }

  lemma {:induction false} DecimalIsInjective(a: nat, b: nat)
    requires Decimal(a) == Decimal(b)
    ensures a == b
  {
    var last := |Decimal(a)| - 1;
    assert Decimal(a)[last] == Digit(a % 10) && Decimal(b)[last] == Digit(b % 10);
    assert a % 10 == b % 10;
    DecimalLength(a);
    DecimalLength(b);
    if a >= 10 {
      assert Decimal(a)[..last] == Decimal(a / 10) && Decimal(b)[..last] == Decimal(b / 10);
      DecimalIsInjective(a / 10, b / 10);
    }
  }

  /** The prefix test recognises a user exactly when the first id, up to and with its colon, begins the other
      one with its: as no colon occurs in ids like UUIDs, exactly when the two are equal. */
  lemma PrefixIsExact(user: UserId, other: UserId, service: ServiceId)
    ensures UserPrefix(user) <= Composite(other, service) <==> UserPrefix(user) <= UserPrefix(other)
    ensures ColonFree(other) ==> (UserPrefix(user) <= Composite(other, service) <==> user == other)
  {
    hide Decimal;
    DecimalIsColonFree(service);
    var key := Composite(other, service);
    if UserPrefix(user) <= key {
      assert key[|user|] == ':';
      assert forall i :: |other| < i < |key| ==> key[i] == Decimal(service)[i - |other| - 1] != ':';
      assert UserPrefix(user) == key[..|user| + 1] <= key[..|other| + 1] == UserPrefix(other);
      if ColonFree(other) {
        assert forall i :: 0 <= i < |other| ==> key[i] == other[i] != ':';
        assert user == UserPrefix(user)[..|user|] == UserPrefix(other)[..|other|] == other;
      }
    }
  }

  /** The last colon ends the user id, whatever the id contains: what follows it is the service alone. */
  lemma ServiceEndsKey(u: UserId, s: ServiceId, v: UserId, t: ServiceId)
    requires Composite(u, s) == Composite(v, t)
    ensures |Decimal(s)| <= |Decimal(t)|
  {
    hide Decimal;
    DecimalIsColonFree(s);
    var key := Composite(u, s);
    assert |key| == |v| + 1 + |Decimal(t)| && key[|v|] == ':';
    assert forall i :: |u| < i < |key| ==> key[i] == Decimal(s)[i - |u| - 1] != ':';
  }

  lemma CompositeIsInjective(u: UserId, s: ServiceId, v: UserId, t: ServiceId)
    requires Composite(u, s) == Composite(v, t)
    ensures u == v && s == t
  {
    hide Decimal;
    ServiceEndsKey(u, s, v, t);
    ServiceEndsKey(v, t, u, s);
    assert Composite(u, s)[..|u|] == u && Composite(v, t)[..|v|] == v;
    assert Composite(u, s)[|u| + 1..] == Decimal(s) && Composite(v, t)[|v| + 1..] == Decimal(t);
    DecimalIsInjective(s, t);
  }
}
