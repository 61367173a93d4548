/** The members of the Redis handoff ZSet: "orderId|userId|flag". */
module MemberCodec {
  import opened Wrappers
  import opened SeckillTypes
  import opened Decimals

  function BuildMember(orderId: OrderId, userId: UserId, autoIssued: bool): string {
    Render(orderId) + "|" + Render(userId) + "|" + (if autoIssued then "1" else "0")
  }

  /** Splitting at every '|', keeping empty parts. */
  function Split(s: string): (parts: seq<string>)
    ensures |parts| >= 1
  {
    if s == "" then [""]
    else if s[0] == '|' then [""] + Split(s[1..])
    else
      var rest := Split(s[1..]);
      [[s[0]] + rest[0]] + rest[1..]
  }

  function Parse(voucherId: VoucherId, member: string, now: Time): Option<Event> {
    var parts := Split(member);
    if |parts| != 3 then None else
      var orderId, userId := Read(parts[0]), Read(parts[1]);
      if orderId.None? || userId.None? then None
      else Some(PendingEvent(orderId.value, voucherId, userId.value, parts[2] == "1", now))
  }

  lemma {:induction false} SplitFirst(a: string, rest: string)
    requires '|' !in a
    ensures Split(a + "|" + rest) == [a] + Split(rest)
  {
    var s := a + "|" + rest;
    if a == "" {
      assert s[1..] == rest;
    } else {
      assert s[1..] == a[1..] + "|" + rest;
      SplitFirst(a[1..], rest);
      assert [s[0]] + a[1..] == a;
    }
  }

  lemma {:induction false} SplitWhole(a: string)
    requires '|' !in a
    ensures Split(a) == [a]
  {
    if a != "" {
      SplitWhole(a[1..]);
      assert [a[0]] + a[1..] == a;
    }
  }

  lemma SplitThree(a: string, b: string, c: string)
    requires '|' !in a && '|' !in b && '|' !in c
    ensures Split(a + "|" + b + "|" + c) == [a, b, c]
  {
    assert a + "|" + b + "|" + c == a + "|" + (b + "|" + c);
    SplitFirst(a, b + "|" + c);
    SplitFirst(b, c);
    SplitWhole(c);
  }

  /** Splitting loses only the separators. */
  lemma {:induction false} JoinSplit(s: string)
    ensures Joined(Split(s)) == s
    ensures forall i | 0 <= i < |Split(s)| :: '|' !in Split(s)[i]
  {
    if s != "" {
      var rest := Split(s[1..]);
      JoinSplit(s[1..]);
      if s[0] == '|' {
        assert ([""] + rest)[1..] == rest;
        assert Joined([""] + rest) == "|" + s[1..];
      } else {
        var parts := [[s[0]] + rest[0]] + rest[1..];
        assert parts[1..] == rest[1..];
        assert Joined(parts) == [s[0]] + Joined(rest);
      }
    }
  }

  function Joined(parts: seq<string>): string
    requires |parts| >= 1
  {
    if |parts| == 1 then parts[0] else parts[0] + "|" + Joined(parts[1..])
  }

  lemma JoinThree(a: string, b: string, c: string)
    ensures Joined([a, b, c]) == a + "|" + b + "|" + c
  {
    assert [a, b, c][1..] == [b, c] && [b, c][1..] == [c];
    assert Joined([b, c]) == b + "|" + c;
    assert a + "|" + (b + "|" + c) == a + "|" + b + "|" + c;
  }

  lemma RenderHasNoBar(n: int)
    ensures '|' !in Render(n)
  {
    var digits := RenderNat(if n < 0 then -n else n);
    assert forall c | c in digits :: IsDigit(c);
  }

  /** What the accept script wrote is what the relay reads, for all longs and both flags. */
  lemma RoundTrip(voucherId: VoucherId, orderId: OrderId, userId: UserId, autoIssued: bool, now: Time)
    requires IsLong(orderId) && IsLong(userId)
    ensures Parse(voucherId, BuildMember(orderId, userId, autoIssued), now)
         == Some(PendingEvent(orderId, voucherId, userId, autoIssued, now))
  {
    RenderHasNoBar(orderId);
    RenderHasNoBar(userId);
    SplitThree(Render(orderId), Render(userId), if autoIssued then "1" else "0");
    ReadOfRender(orderId);
    ReadOfRender(userId);
  }

  lemma ReadsThreeParts(voucherId: VoucherId, first: string, second: string, flag: string, now: Time)
    requires '|' !in first && '|' !in second && '|' !in flag
    ensures var member := first + "|" + second + "|" + flag;
            Parse(voucherId, member, now)
            == if Read(first).None? || Read(second).None? then None
               else Some(Event(Render(Read(first).value), Read(first).value, voucherId, Read(second).value,
                               flag == "1", now))
  {
    SplitThree(first, second, flag);
    hide Read, Split, Render;
  }

  // Three parts between two bars, the first two of them numbers.
  predicate ThreeParts(member: string, first: string, second: string, flag: string) {
    && '|' !in first && '|' !in second && '|' !in flag && member == first + "|" + second + "|" + flag
    && Read(first).Some? && Read(second).Some?
  }

  /** A text is a member if and only if it has exactly three parts, the first two of which are numbers. */
  lemma ParsesExactly(voucherId: VoucherId, member: string, now: Time)
    ensures Parse(voucherId, member, now).Some?
       <==> exists first, second, flag :: ThreeParts(member, first, second, flag)
  {
    if Parse(voucherId, member, now).Some? {
      hide Read;
      var parts := Split(member);
      JoinSplit(member);
      assert parts == [parts[0], parts[1], parts[2]];
      JoinThree(parts[0], parts[1], parts[2]);
      assert ThreeParts(member, parts[0], parts[1], parts[2]);
    }
    if first, second, flag :| ThreeParts(member, first, second, flag) {
      ReadsThreeParts(voucherId, first, second, flag, now);
    }
  }

  /** Whoever writes a member in the form of the accept script, order first, is read with that order, that
      buyer and that flag. */
  lemma ReadsOrderFirst(voucherId: VoucherId, orderId: OrderId, userId: UserId, now: Time)
    requires IsLong(orderId) && IsLong(userId)
    ensures Parse(voucherId, Render(orderId) + "|" + Render(userId) + "|" + "0", now)
         == Some(Event(Render(orderId), orderId, voucherId, userId, false, now))
    ensures Parse(voucherId, Render(orderId) + "|" + Render(userId) + "|" + "1", now)
         == Some(Event(Render(orderId), orderId, voucherId, userId, true, now))
  {
    hide Parse, Render, Read;
    RenderHasNoBar(orderId);
    RenderHasNoBar(userId);
    ReadOfRender(orderId);
    ReadOfRender(userId);
    ReadsThreeParts(voucherId, Render(orderId), Render(userId), "0", now);
    ReadsThreeParts(voucherId, Render(orderId), Render(userId), "1", now);
  }

  /** Order 10 of user 1, as the scripts write it, and members that are none. */
  lemma ReadsOrderTen(now: Time)
    ensures BuildMember(10, 1, false) == "10|1|0"
    ensures Parse(7, "10|1|0", now) == Some(Event("10", 10, 7, 1, false, now))
    ensures Parse(7, "10|1|1", now) == Some(Event("10", 10, 7, 1, true, now))
    ensures Parse(7, "10|x|0", now) == None && Parse(7, "10|1", now) == None
  {
    RendersAsWritten();
    hide Render, Read, Parse, Split;
    ReadsOrderFirst(7, 10, 1, now);
    assert "10" + "|" + "1" + "|" + "0" == "10|1|0";
    assert "10" + "|" + "1" + "|" + "1" == "10|1|1";
    NotThreeNumbers(now);
  }

  lemma NotThreeNumbers(now: Time)
    ensures Parse(7, "10|x|0", now) == None && Parse(7, "10|1", now) == None
  {
    assert "10" + "|" + "x" + "|" + "0" == "10|x|0" && "10" + "|" + "1" == "10|1";
    assert !IsDigit("x"[0]) && Read("x") == None;
    hide Read;
    ReadsThreeParts(7, "10", "x", "0", now);
    SplitFirst("10", "1");
    SplitWhole("1");
    hide Split;
  }

  /** Distinct purchases have distinct members. */
  lemma BuildInjective(o1: OrderId, u1: UserId, f1: bool, o2: OrderId, u2: UserId, f2: bool)
    requires BuildMember(o1, u1, f1) == BuildMember(o2, u2, f2)
    ensures o1 == o2 && u1 == u2 && f1 == f2
  {
    RenderHasNoBar(o1);
    RenderHasNoBar(u1);
    RenderHasNoBar(o2);
    RenderHasNoBar(u2);
    var c1, c2 := if f1 then "1" else "0", if f2 then "1" else "0";
    SplitThree(Render(o1), Render(u1), c1);
    SplitThree(Render(o2), Render(u2), c2);
    assert [Render(o1), Render(u1), c1][0] == Render(o2);
    assert [Render(o1), Render(u1), c1][1] == Render(u2);
    assert [Render(o1), Render(u1), c1][2] == c2;
    RenderInjective(o1, o2);
    RenderInjective(u1, u2);
  }

  // No plus sign, no superfluous zero, no "-0".
  predicate CanonicalLong(s: string) {
    var digits := if |s| > 0 && s[0] == '-' then s[1..] else s;
    && digits != "" && AllDigits(digits)
    && (digits[0] == '0' ==> s == "0")
  }

  predicate CanonicalMember(member: string) {
    var parts := Split(member);
    |parts| == 3 && CanonicalLong(parts[0]) && CanonicalLong(parts[1]) && (parts[2] == "0" || parts[2] == "1")
  }

  lemma RenderIsCanonical(n: int)
    ensures CanonicalLong(Render(n))
  {
    if n < 0 {
      assert Render(n)[1..] == RenderNat(-n);
    } else {
      assert IsDigit(Render(n)[0]);
      assert Render(n)[0] == '0' ==> n == 0;
    }
  }

  lemma RenderOfRead(s: string)
    requires Read(s).Some?
    ensures Render(Read(s).value) == s <==> CanonicalLong(s)
  {
    RenderIsCanonical(Read(s).value);
    if CanonicalLong(s) {
      if s[0] == '-' {
        RenderNatOfReadNat(s[1..]);
        assert "-" + s[1..] == s;
      } else {
        assert IsDigit(s[0]);
        RenderNatOfReadNat(s);
      }
    }
  }

  /** Rebuilding a parsed member gives the member back exactly when it was canonical: "+5|1|0",
      "05|1|0" and "5|1|x" parse as well, but no purchase writes them. */
  lemma RebuildExactly(voucherId: VoucherId, member: string, now: Time)
    requires Parse(voucherId, member, now).Some?
    ensures var e := Parse(voucherId, member, now).value;
            BuildMember(e.orderId, e.userId, e.autoIssued) == member <==> CanonicalMember(member)
  {
    var parts := Split(member);
    var e := Parse(voucherId, member, now).value;
    var flag := if e.autoIssued then "1" else "0";
    RenderOfRead(parts[0]);
    RenderOfRead(parts[1]);
    RenderIsCanonical(e.orderId);
    RenderIsCanonical(e.userId);
    RenderHasNoBar(e.orderId);
    RenderHasNoBar(e.userId);
    SplitThree(Render(e.orderId), Render(e.userId), flag);
    JoinSplit(member);
    assert parts == [parts[0], parts[1], parts[2]];
    JoinThree(parts[0], parts[1], parts[2]);
  }
}
