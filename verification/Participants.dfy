/** Phone evidence for group participants: a phone is kept only where everything known agrees. */
module Participants {
  import opened Common

  // ---------------------------------------------------------------- the phone

  const PHONE_HOST := "@s.whatsapp.net"
  const LID_HOST := "@lid"
  const CAPACITY := 10000

  predicate Digit(c: char) {
    '0' <= c <= '9'
  }

  predicate Digits(s: string) {
    forall i :: 0 <= i < |s| ==> Digit(s[i])
  }

  /** Seven to fifteen digits, the first of them not zero. */
  predicate IsPhone(s: string) {
    7 <= |s| <= 15 && s[0] != '0' && Digits(s)
  }

  predicate EndsWith(s: string, suffix: string) {
    |suffix| <= |s| && s[|s| - |suffix|..] == suffix
  }

  function LeadingDigits(s: string): (n: nat)
    ensures n <= |s| && Digits(s[..n]) && (n < |s| ==> !Digit(s[n]))
  {
    if s == "" || !Digit(s[0]) then 0
    else
      var rest := LeadingDigits(s[1..]);
      assert forall i :: 1 <= i < 1 + rest ==> s[i] == s[1..][..rest][i - 1];
      1 + rest
  }

  /** A phone, perhaps followed by a device number. */
  function PhoneOf(body: string): Option<string> {
    var n := LeadingDigits(body);
    var phone, device := body[..n], body[n..];
    if !IsPhone(phone) then None
    else if device == "" || (|device| > 1 && device[0] == ':' && Digits(device[1..])) then Some(phone)
    else None
  }

  function PhoneFromJid(value: Option<string>): Option<string> {
    if value.None? || !EndsWith(value.value, PHONE_HOST) then None
    else PhoneOf(value.value[..|value.value| - |PHONE_HOST|])
  }

  ghost predicate AllDecimal(s: string) {
    forall i :: 0 <= i < |s| ==> '0' <= s[i] <= '9'
  }

  ghost predicate WithDevice(body: string, phone: string) {
    exists device :: device != "" && AllDecimal(device) && body == phone + ":" + device
  }

  /** Seven to fifteen digits that do not open with a zero. */
  ghost predicate PhoneNumber(s: string) {
    7 <= |s| <= 15 && '1' <= s[0] <= '9' && AllDecimal(s)
  }

  /** A phone JID: a phone number, perhaps a device number, and the phone host. */
  ghost predicate PhoneJid(jid: string, phone: string) {
    && PhoneNumber(phone)
    && exists body :: jid == body + "@s.whatsapp.net" && (body == phone || WithDevice(body, phone))
  }

  lemma {:induction false} LeadingDigitsAre(phone: string, rest: string)
    requires Digits(phone) && (rest == "" || !Digit(rest[0]))
    ensures LeadingDigits(phone + rest) == |phone|
  {
    if phone == "" {
      assert phone + rest == rest;
    } else {
      LeadingDigitsAre(phone[1..], rest);
      assert (phone + rest)[1..] == phone[1..] + rest;
    }
  }

  lemma PhoneOfExactly(body: string, phone: string)
    ensures PhoneOf(body) == Some(phone) <==> IsPhone(phone) && (body == phone || WithDevice(body, phone))
  {
    if IsPhone(phone) && body == phone {
      LeadingDigitsAre(phone, "");
      assert phone + "" == phone;
    } else if IsPhone(phone) && WithDevice(body, phone) {
      var device :| device != "" && Digits(device) && body == phone + ":" + device;
      LeadingDigitsAre(phone, ":" + device);
      assert body == phone + (":" + device);
      assert body[..|phone|] == phone && body[|phone|..] == ":" + device && (":" + device)[1..] == device;
    } else if PhoneOf(body).Some? {
      var n := LeadingDigits(body);
      assert body == body[..n] + body[n..];
      if body[n..] != "" { assert body == body[..n] + ":" + body[n..][1..]; }
    }
  }

  /** The phone is found exactly in phone JIDs, and it is theirs. */
  lemma PhoneFromJidExactly(jid: string, phone: string)
    ensures PhoneFromJid(Some(jid)) == Some(phone) <==> PhoneJid(jid, phone)
  {
    forall body | jid == body + PHONE_HOST
      ensures EndsWith(jid, PHONE_HOST) && jid[..|jid| - |PHONE_HOST|] == body
    {
    }
    if EndsWith(jid, PHONE_HOST) {
      var body := jid[..|jid| - |PHONE_HOST|];
      assert jid == body + PHONE_HOST;
      PhoneOfExactly(body, phone);
    }
  }

  // ------------------------------------------------------------ the directory

  /** A missing field or one that is not text reads as None. */
  datatype Member = Member(phoneNumber: Option<string>, id: Option<string>)

  /** None in the list stands for an entry that is not an object. */
  datatype Roster = Nothing | Listed(members: seq<Option<Member>>) | NotAList

  datatype Group = Group(id: string, roster: Roster)

  datatype DirectoryError = InvalidDirectory | OverCapacity

  type Phones = map<string, string>

  function Members(g: Group): seq<Option<Member>> {
    if g.roster.Listed? then g.roster.members else []
  }

  predicate ParticipantIdentity(s: string) {
    EndsWith(s, LID_HOST) || EndsWith(s, PHONE_HOST)
  }

  function MemberPhone(m: Member): Option<string> {
    var phone := PhoneFromJid(m.phoneNumber);
    if phone.Some? then phone else PhoneFromJid(m.id)
  }

  /** The entry is evidence that this identity has this phone. */
  predicate Says(entry: Option<Member>, identity: string, phone: string) {
    entry.Some? && entry.value.id == Some(identity) && ParticipantIdentity(identity) &&
      MemberPhone(entry.value) == Some(phone)
  }

  ghost predicate NoPhoneJid(value: Option<string>) {
    value.None? || forall phone :: !PhoneJid(value.value, phone)
  }

  /** An entry gives its id the phone of its number or, where that is none, its own; ids are LIDs or phone JIDs. */
  lemma EvidenceExactly(entry: Option<Member>, identity: string, phone: string)
    ensures Says(entry, identity, phone) <==>
      && entry.Some? && entry.value.id == Some(identity)
      && (exists body :: identity == body + "@lid" || identity == body + "@s.whatsapp.net")
      && (|| (entry.value.phoneNumber.Some? && PhoneJid(entry.value.phoneNumber.value, phone))
          || (NoPhoneJid(entry.value.phoneNumber) && PhoneJid(identity, phone)))
  {
    EndsExactly(identity, "@lid");
    EndsExactly(identity, "@s.whatsapp.net");
    PhoneFromJidExactly(identity, phone);
    if entry.Some? && entry.value.phoneNumber.Some? {
      var number := entry.value.phoneNumber;
      forall p ensures PhoneFromJid(number) == Some(p) <==> PhoneJid(number.value, p) {
        PhoneFromJidExactly(number.value, p);
      }
    }
  }

  lemma EndsExactly(s: string, suffix: string)
    ensures EndsWith(s, suffix) <==> exists body :: s == body + suffix
  {
    if EndsWith(s, suffix) { assert s == s[..|s| - |suffix|] + suffix; }
  }

  predicate Speaks(entry: Option<Member>) {
    && entry.Some? && entry.value.id.Some? && ParticipantIdentity(entry.value.id.value)
    && MemberPhone(entry.value).Some?
  }

  /** Somebody says so and nobody says otherwise. */
  ghost predicate Agreed(members: seq<Option<Member>>, identity: string, phone: string) {
    && (exists m :: m in members && Says(m, identity, phone))
    && (forall m, q :: m in members && Says(m, identity, q) ==> q == phone)
  }

  ghost predicate Contested(members: seq<Option<Member>>, identity: string) {
    exists m, n, p, q :: m in members && n in members && Says(m, identity, p) && Says(n, identity, q) && p != q
  }

  function Spoken(members: seq<Option<Member>>): (n: nat)
    ensures n <= |members|
  {
    if members == [] then 0
    else Spoken(members[..|members| - 1]) + if Speaks(members[|members| - 1]) then 1 else 0
  }

  /** Pieces of evidence in the first `k` groups. */
  function Total(groups: seq<Group>, k: nat): nat
    requires k <= |groups|
  {
    if k == 0 then 0 else Total(groups, k - 1) + Spoken(Members(groups[k - 1]))
  }

  ghost predicate DirectoryOf(members: seq<Option<Member>>, phones: Phones) {
    forall identity, phone :: (identity in phones && phones[identity] == phone) <==> Agreed(members, identity, phone)
  }

  /** No later group among the first `n` has this one's id. */
  ghost predicate LastOfItsId(groups: seq<Group>, n: nat, i: nat)
    requires n <= |groups|
  {
    i < n && forall j :: i < j < n ==> groups[j].id != groups[i].id
  }

  predicate Named(groups: seq<Group>, n: nat, id: string)
    requires n <= |groups|
  {
    exists i :: 0 <= i < n && groups[i].id == id
  }

  /** The directory of each id among the first `n` groups is that of the last group that has it. */
  ghost predicate AllDirectories(groups: seq<Group>, n: nat, result: map<string, Phones>)
    requires n <= |groups|
  {
    && (forall id :: id in result <==> Named(groups, n, id))
    && (forall i {:trigger LastOfItsId(groups, n, i)} :: 0 <= i < n && LastOfItsId(groups, n, i) ==>
          groups[i].id in result && DirectoryOf(Members(groups[i]), result[groups[i].id]))
  }

  /** Groups before this one are fine and within capacity, and this one is not a list. */
  ghost predicate InvalidAt(groups: seq<Group>, i: nat) {
    && i < |groups| && groups[i].roster.NotAList? && Total(groups, i) <= 10000 && AllListed(groups, i)
  }

  ghost predicate InvalidFirst(groups: seq<Group>) {
    exists i :: InvalidAt(groups, i)
  }

  ghost predicate AllListed(groups: seq<Group>, k: nat)
    requires k <= |groups|
  {
    forall i :: 0 <= i < k ==> !groups[i].roster.NotAList?
  }

  /** Which error, if any: that of the first group at which something is wrong. */
  ghost predicate Verdict(groups: seq<Group>, answer: Result<map<string, Phones>, DirectoryError>) {
    && (answer.Ok? <==> AllListed(groups, |groups|) && Total(groups, |groups|) <= 10000)
    && (answer == Err(InvalidDirectory) <==> InvalidFirst(groups))
  }

  ghost predicate Answered(groups: seq<Group>, answer: Result<map<string, Phones>, DirectoryError>) {
    Verdict(groups, answer) && (answer.Ok? ==> AllDirectories(groups, |groups|, answer.value))
  }

  /** What the inner loop knows after some of the members. */
  ghost predicate Heard(members: seq<Option<Member>>, phones: Phones, ambiguous: set<string>) {
    && (forall identity :: identity in phones ==> exists m :: m in members && Says(m, identity, phones[identity]))
    && (forall m, identity, q :: m in members && Says(m, identity, q) ==>
        identity in phones && (q == phones[identity] || identity in ambiguous))
    && (forall identity :: identity in ambiguous ==> identity in phones && Contested(members, identity))
  }

  lemma HearOne(members: seq<Option<Member>>, phones: Phones, ambiguous: set<string>, entry: Option<Member>,
                identity: string, phone: string)
    requires Heard(members, phones, ambiguous) && Says(entry, identity, phone)
    ensures Heard(members + [entry], phones[identity := phone],
      if identity in phones && phones[identity] != phone then ambiguous + {identity} else ambiguous)
  {
    var all := members + [entry];
    assert forall m :: m in all <==> m in members || m == entry;
    var after := if identity in phones && phones[identity] != phone then ambiguous + {identity} else ambiguous;
    forall other | other in after ensures Contested(all, other) {
      if other in ambiguous {
        var m, n, p, q :| m in members && n in members && Says(m, other, p) && Says(n, other, q) && p != q;
        assert m in all && n in all;
      } else {
        var m :| m in members && Says(m, identity, phones[identity]);
        assert m in all && entry in all && Says(entry, identity, phone);
      }
    }
    var known := phones[identity := phone];
    forall other | other in known ensures exists m :: m in all && Says(m, other, known[other]) {
      if other == identity { assert entry in all; }
      else { var m :| m in members && Says(m, other, phones[other]); assert m in all; }
    }
  }

  lemma HearNothing(members: seq<Option<Member>>, phones: Phones, ambiguous: set<string>, entry: Option<Member>)
    requires Heard(members, phones, ambiguous) && !Speaks(entry)
    ensures Heard(members + [entry], phones, ambiguous)
  {
  }

  lemma HeardAll(members: seq<Option<Member>>, phones: Phones, ambiguous: set<string>)
    requires Heard(members, phones, ambiguous)
    ensures DirectoryOf(members, map key | key in phones && key !in ambiguous :: phones[key])
  {
  }

  lemma SpokenMore(members: seq<Option<Member>>, k: nat)
    requires k < |members|
    ensures members[..k + 1] == members[..k] + [members[k]]
    ensures Spoken(members[..k + 1]) == Spoken(members[..k]) + if Speaks(members[k]) then 1 else 0
  {
    assert members[..k + 1][..k] == members[..k];
  }

  /** What one more member adds to what the loop knows. */
  lemma HearNext(members: seq<Option<Member>>, k: nat, phones: Phones, ambiguous: set<string>)
    requires k < |members| && Heard(members[..k], phones, ambiguous)
    ensures !Speaks(members[k]) ==> Heard(members[..k + 1], phones, ambiguous)
    ensures Speaks(members[k]) ==>
      var phone, identity := MemberPhone(members[k].value).value, members[k].value.id.value;
      Heard(members[..k + 1], phones[identity := phone],
        if identity in phones && phones[identity] != phone then ambiguous + {identity} else ambiguous)
  {
    SpokenMore(members, k);
    if Speaks(members[k]) {
      HearOne(members[..k], phones, ambiguous, members[k], members[k].value.id.value,
        MemberPhone(members[k].value).value);
    } else {
      HearNothing(members[..k], phones, ambiguous, members[k]);
    }
  }

  /** One group's members, with the running count shared by all groups. */
  method GroupPhones(members: seq<Option<Member>>, before: nat)
    returns (phones: Phones, ambiguous: set<string>, count: nat, over: bool)
    requires before <= CAPACITY
    ensures over <==> before + Spoken(members) > CAPACITY
    ensures !over ==> count == before + Spoken(members) && Heard(members, phones, ambiguous)
  {
    phones, ambiguous, count, over := map[], {}, before, false;
    for k := 0 to |members|
      invariant Heard(members[..k], phones, ambiguous)
      invariant count == before + Spoken(members[..k]) <= CAPACITY
    {
      HearNext(members, k, phones, ambiguous);
      SpokenMore(members, k);
      if !Speaks(members[k]) {
        continue;
      }
      var phone, identity := MemberPhone(members[k].value).value, members[k].value.id.value;
      if identity in phones && phones[identity] != phone {
        ambiguous := ambiguous + {identity};
      }
      phones := phones[identity := phone];
      count := count + 1;
      if count > CAPACITY {
        SpokenGrows(members, k + 1);
        over := true;
        return;
      }
    }
    assert members[..|members|] == members;
  }

  lemma {:induction false} SpokenGrows(members: seq<Option<Member>>, k: nat)
    requires k <= |members|
    ensures Spoken(members[..k]) <= Spoken(members)
  {
    if k == |members| {
      assert members[..k] == members;
    } else {
      SpokenGrows(members[..|members| - 1], k);
      assert members[..|members| - 1][..k] == members[..k];
    }
  }

  lemma {:induction false} TotalGrows(groups: seq<Group>, j: nat, k: nat)
    requires j <= k <= |groups|
    ensures Total(groups, j) <= Total(groups, k)
  {
    if j < k { TotalGrows(groups, j, k - 1); }
  }

  lemma NamedMore(groups: seq<Group>, k: nat, id: string)
    requires k < |groups|
    ensures Named(groups, k + 1, id) <==> Named(groups, k, id) || groups[k].id == id
  {
    if Named(groups, k, id) {
      var i :| 0 <= i < k && groups[i].id == id;
      assert 0 <= i < k + 1;
    }
  }

  lemma OneDirectoryMore(groups: seq<Group>, k: nat, result: map<string, Phones>, phones: Phones)
    requires k < |groups| && AllDirectories(groups, k, result) && DirectoryOf(Members(groups[k]), phones)
    ensures AllDirectories(groups, k + 1, result[groups[k].id := phones])
  {
    var after := result[groups[k].id := phones];
    forall id ensures id in after <==> Named(groups, k + 1, id) { NamedMore(groups, k, id); }
    forall i: nat | i < k + 1 && LastOfItsId(groups, k + 1, i)
      ensures groups[i].id in after && DirectoryOf(Members(groups[i]), after[groups[i].id])
    {
      if i < k {
        assert groups[k].id != groups[i].id;
        assert LastOfItsId(groups, k, i);
      }
    }
  }

  lemma CapacityExceeded(groups: seq<Group>, k: nat)
    requires k <= |groups| && AllListed(groups, k) && Total(groups, k) > CAPACITY
    ensures Total(groups, |groups|) > CAPACITY && !InvalidFirst(groups)
  {
    TotalGrows(groups, k, |groups|);
    forall i: nat ensures !InvalidAt(groups, i) {
      if k <= i <= |groups| { TotalGrows(groups, k, i); }
    }
  }

  method ParticipantDirectory(groups: seq<Group>) returns (answer: Result<map<string, Phones>, DirectoryError>)
    ensures Answered(groups, answer)
  {
    var result: map<string, Phones> := map[];
    var count: nat := 0;
    for k := 0 to |groups|
      invariant AllListed(groups, k) && count == Total(groups, k) <= CAPACITY
      invariant AllDirectories(groups, k, result)
    {
      var group := groups[k];
      if group.roster.NotAList? {
        assert InvalidAt(groups, k);
        return Err(InvalidDirectory);
      }
      var phones, ambiguous, after, over := GroupPhones(Members(group), count);
      if over {
        CapacityExceeded(groups, k + 1);
        return Err(OverCapacity);
      }
      count := after;
      HeardAll(Members(group), phones, ambiguous);
      var kept := map key | key in phones && key !in ambiguous :: phones[key];
      OneDirectoryMore(groups, k, result, kept);
      result := result[group.id := kept];
    }
    return Ok(result);
  }

  // ------------------------------------------------------------ order is moot

  lemma SameSpeakers(a: seq<Option<Member>>, b: seq<Option<Member>>, phones: Phones)
    requires multiset(a) == multiset(b) && DirectoryOf(a, phones)
    ensures DirectoryOf(b, phones)
  {
    assert forall m :: m in a <==> m in multiset(a);
    assert forall m :: m in b <==> m in multiset(b);
    forall identity, phone ensures Agreed(a, identity, phone) <==> Agreed(b, identity, phone) {
    }
  }

  lemma OneDirectory(members: seq<Option<Member>>, p: Phones, q: Phones)
    requires DirectoryOf(members, p) && DirectoryOf(members, q)
    ensures p == q
  {
    forall identity ensures identity in p <==> identity in q {
      if identity in p { assert Agreed(members, identity, p[identity]); }
      if identity in q { assert Agreed(members, identity, q[identity]); }
    }
    forall identity | identity in p ensures p[identity] == q[identity] {
      assert Agreed(members, identity, p[identity]);
    }
  }

  lemma {:induction false} SpokenJoin(a: seq<Option<Member>>, b: seq<Option<Member>>)
    ensures Spoken(a + b) == Spoken(a) + Spoken(b)
  {
    if b == [] {
      assert a + b == a;
    } else {
      SpokenJoin(a, b[..|b| - 1]);
      assert (a + b)[..|a + b| - 1] == a + b[..|b| - 1];
    }
  }

  /** Take one occurrence of `x` out of a list. */
  lemma TakeOut(members: seq<Option<Member>>, x: Option<Member>)
    returns (left: seq<Option<Member>>, right: seq<Option<Member>>)
    requires x in members
    ensures members == left + [x] + right && multiset(left + right) == multiset(members) - multiset{x}
  {
    var j :| 0 <= j < |members| && members[j] == x;
    left, right := members[..j], members[j + 1..];
    assert members == left + [x] + right;
  }

  lemma SpokenWithout(left: seq<Option<Member>>, x: Option<Member>, right: seq<Option<Member>>)
    ensures Spoken(left + [x] + right) == Spoken(left + right) + if Speaks(x) then 1 else 0
  {
    SpokenJoin(left, right);
    SpokenJoin(left + [x], right);
    assert (left + [x])[..|left|] == left;
  }

  lemma AllButLast(members: seq<Option<Member>>)
    requires members != []
    ensures members[|members| - 1] in members
    ensures multiset(members[..|members| - 1]) == multiset(members) - multiset{members[|members| - 1]}
  {
    assert members == members[..|members| - 1] + [members[|members| - 1]];
  }

  lemma {:induction false} SpokenIgnoresOrder(a: seq<Option<Member>>, b: seq<Option<Member>>)
    requires multiset(a) == multiset(b)
    ensures Spoken(a) == Spoken(b)
  {
    if a == [] {
      assert |multiset(b)| == 0;
    } else {
      var last := a[|a| - 1];
      AllButLast(a);
      assert last in multiset(b);
      var left, right := TakeOut(b, last);
      SpokenIgnoresOrder(a[..|a| - 1], left + right);
      SpokenWithout(left, last, right);
    }
  }

  /** The same groups, each with its members shuffled. */
  ghost predicate Shuffled(a: seq<Group>, b: seq<Group>) {
    && |a| == |b|
    && forall i :: 0 <= i < |a| ==>
         a[i].id == b[i].id && (a[i].roster.NotAList? <==> b[i].roster.NotAList?) &&
           multiset(Members(a[i])) == multiset(Members(b[i]))
  }

  lemma {:induction false} TotalIgnoresOrder(a: seq<Group>, b: seq<Group>, k: nat)
    requires Shuffled(a, b) && k <= |a|
    ensures Total(a, k) == Total(b, k)
  {
    if k > 0 {
      TotalIgnoresOrder(a, b, k - 1);
      SpokenIgnoresOrder(Members(a[k - 1]), Members(b[k - 1]));
    }
  }

  lemma {:induction false} LastIndex(groups: seq<Group>, id: string) returns (i: nat)
    requires Named(groups, |groups|, id)
    ensures LastOfItsId(groups, |groups|, i) && groups[i].id == id
  {
    i := |groups| - 1;
    while groups[i].id != id
      invariant i < |groups| && forall j :: i < j < |groups| ==> groups[j].id != id
      decreases i
    {
      var j :| 0 <= j < |groups| && groups[j].id == id;
      assert j < i;
      i := i - 1;
    }
  }

  lemma InvalidIgnoresOrder(a: seq<Group>, b: seq<Group>)
    requires Shuffled(a, b) && InvalidFirst(a)
    ensures InvalidFirst(b)
  {
    var i :| InvalidAt(a, i);
    TotalIgnoresOrder(a, b, i);
    assert InvalidAt(b, i);
  }

  lemma SameGroups(a: seq<Group>, b: seq<Group>, x: map<string, Phones>, y: map<string, Phones>, id: string)
    requires Shuffled(a, b) && AllDirectories(a, |a|, x) && AllDirectories(b, |b|, y) && id in x
    ensures id in y
  {
    var i :| 0 <= i < |a| && a[i].id == id;
    assert b[i].id == id;
  }

  lemma SameInGroup(a: seq<Group>, b: seq<Group>, x: map<string, Phones>, y: map<string, Phones>, id: string)
    requires Shuffled(a, b) && AllDirectories(a, |a|, x) && AllDirectories(b, |b|, y) && id in x && id in y
    ensures x[id] == y[id]
  {
    var i := LastIndex(a, id);
    assert LastOfItsId(b, |b|, i) && b[i].id == id;
    SameSpeakers(Members(a[i]), Members(b[i]), x[id]);
    OneDirectory(Members(b[i]), x[id], y[id]);
  }

  lemma ShuffledBack(a: seq<Group>, b: seq<Group>)
    requires Shuffled(a, b)
    ensures Shuffled(b, a)
  {
  }

  ghost predicate Within(x: map<string, Phones>, y: map<string, Phones>) {
    forall id :: id in x ==> id in y && x[id] == y[id]
  }

  lemma WithinBoth(x: map<string, Phones>, y: map<string, Phones>)
    requires Within(x, y) && Within(y, x)
    ensures x == y
  {
  }

  lemma WithinShuffled(a: seq<Group>, b: seq<Group>, x: map<string, Phones>, y: map<string, Phones>)
    requires Shuffled(a, b) && AllDirectories(a, |a|, x) && AllDirectories(b, |b|, y)
    ensures Within(x, y)
  {
    forall id | id in x ensures id in y && x[id] == y[id] {
      SameGroups(a, b, x, y, id);
      SameInGroup(a, b, x, y, id);
    }
  }

  lemma DirectoriesIgnoreOrder(a: seq<Group>, b: seq<Group>, x: map<string, Phones>, y: map<string, Phones>)
    requires Shuffled(a, b) && AllDirectories(a, |a|, x) && AllDirectories(b, |b|, y)
    ensures x == y
  {
    ShuffledBack(a, b);
    WithinShuffled(a, b, x, y);
    WithinShuffled(b, a, y, x);
    WithinBoth(x, y);
  }

  lemma SameVerdict(a: seq<Group>, b: seq<Group>)
    requires Shuffled(a, b)
    ensures AllListed(a, |a|) <==> AllListed(b, |b|)
    ensures Total(a, |a|) == Total(b, |b|)
    ensures InvalidFirst(a) <==> InvalidFirst(b)
  {
    TotalIgnoresOrder(a, b, |a|);
    ShuffledBack(a, b);
    if InvalidFirst(a) { InvalidIgnoresOrder(a, b); }
    if InvalidFirst(b) { InvalidIgnoresOrder(b, a); }
  }

  lemma SameOutcome(a: seq<Group>, b: seq<Group>, x: Result<map<string, Phones>, DirectoryError>,
                    y: Result<map<string, Phones>, DirectoryError>)
    requires Shuffled(a, b) && Verdict(a, x) && Verdict(b, y)
    ensures (x.Ok? <==> y.Ok?) && (x.Err? ==> x == y)
  {
    SameVerdict(a, b);
    assert x.Err? ==> x.error == InvalidDirectory || x.error == OverCapacity;
    assert y.Err? ==> y.error == InvalidDirectory || y.error == OverCapacity;
    assert x == Err(InvalidDirectory) <==> y == Err(InvalidDirectory);
  }

  /** The answer, error or directory, does not depend on the order members are listed in. */
  lemma MemberOrderIsMoot(a: seq<Group>, b: seq<Group>, x: Result<map<string, Phones>, DirectoryError>,
                          y: Result<map<string, Phones>, DirectoryError>)
    requires Shuffled(a, b) && Answered(a, x) && Answered(b, y)
    ensures x == y
  {
    SameOutcome(a, b, x, y);
    if x.Ok? { DirectoriesIgnoreOrder(a, b, x.value, y.value); }
  }

  // ------------------------------------------------------------- message author

  /** The message key's participant fields. */
  datatype Key = Key(participant: Option<string>, participantAlt: Option<string>)

  function Cached(directory: map<string, Phones>, groupId: string, identity: string): Option<string> {
    if groupId in directory && identity in directory[groupId] then Some(directory[groupId][identity]) else None
  }

  /** One of the three sources names this phone. */
  predicate Names(key: Key, cached: Option<string>, phone: string) {
    && IsPhone(phone)
    && (|| PhoneFromJid(key.participant) == Some(phone)
        || PhoneFromJid(key.participantAlt) == Some(phone)
        || cached == Some(phone))
  }

  /** A phone named for the author is their own JID's, the alternative's, or the directory's for them in this group. */
  lemma NamesExactly(key: Key, directory: map<string, Phones>, groupId: string, identity: string, phone: string)
    ensures Names(key, Cached(directory, groupId, identity), phone) <==>
      && PhoneNumber(phone)
      && (|| (key.participant.Some? && PhoneJid(key.participant.value, phone))
          || (key.participantAlt.Some? && PhoneJid(key.participantAlt.value, phone))
          || (groupId in directory && identity in directory[groupId] && directory[groupId][identity] == phone))
  {
    if key.participant.Some? { PhoneFromJidExactly(key.participant.value, phone); }
    if key.participantAlt.Some? { PhoneFromJidExactly(key.participantAlt.value, phone); }
  }

  method AuthorPhone(key: Key, directory: map<string, Phones>, groupId: string) returns (phone: Option<string>)
    ensures phone.Some? ==> key.participant.Some? && ParticipantIdentity(key.participant.value)
    ensures key.participant.Some? && ParticipantIdentity(key.participant.value) ==>
      forall p :: phone == Some(p) <==>
        var cached := Cached(directory, groupId, key.participant.value);
        Names(key, cached, p) && forall q :: Names(key, cached, q) ==> q == p
    ensures PhoneFromJid(key.participant).Some? ==> phone.None? || phone == PhoneFromJid(key.participant)
  {
    if key.participant.None? || !ParticipantIdentity(key.participant.value) {
      return None;
    }
    var direct, alternate := PhoneFromJid(key.participant), PhoneFromJid(key.participantAlt);
    var cached := Cached(directory, groupId, key.participant.value);
    var sources := [direct, alternate, cached];
    var evidence: set<string> := {};
    for k := 0 to |sources|
      invariant forall p :: p in evidence <==> IsPhone(p) && Some(p) in sources[..k]
    {
      if sources[k].Some? && IsPhone(sources[k].value) {
        evidence := evidence + {sources[k].value};
      }
    }
    assert sources[..|sources|] == sources;
    assert forall o :: o in sources <==> o == direct || o == alternate || o == cached;
    assert forall p :: p in evidence <==> Names(key, cached, p);
    forall p ensures |evidence| == 1 && p in evidence <==> p in evidence && forall q :: q in evidence ==> q == p {
      Alone(evidence, p);
    }
    if |evidence| == 1 {
      var p :| p in evidence;
      return Some(p);
    }
    return None;
  }
}
