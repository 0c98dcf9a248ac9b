/**
 The addresses the agent connects to: looked up over DNS-over-HTTPS at each
 endpoint in turn, only public ones kept, and an answer used again until its
 time is up or connecting to it has failed.
 */
module DohResolver {

  import opened Common
  import opened Octets
  import opened Doh

  /** An answer is kept for its TTL, within these bounds. */
  const MIN_TTL_S: int := 300
  const MAX_TTL_S: int := 3600

  /** How long the system resolver is used after every endpoint failed. */
  const RETRY_S: int := 300

  type Host = nat

  /** The address to use (none: the system resolver), and for or until when. */
  datatype Kept = Kept(address: Option<seq<Byte>>, time: int)

  /** Which addresses are public, or skip the lookup, is the standard library's to say. */
  datatype Rules = Rules(isPublic: seq<Byte> -> bool, skips: Host -> bool)

  function Public(rules: Rules, records: seq<ARecord>): seq<ARecord> {
    if records == [] then []
    else (if rules.isPublic(records[0].address) then [records[0]] else []) + Public(rules, records[1..])
  }

  /** An endpoint's reply has something to use: it parsed, and not every record was dropped. */
  predicate Usable(rules: Rules, reply: Parsed<seq<ARecord>>) {
    reply.Ok? && exists i :: 0 <= i < |reply.value| && rules.isPublic(reply.value[i].address)
  }

  lemma {:induction false} PublicMembers(rules: Rules, records: seq<ARecord>)
    ensures forall a :: a in Public(rules, records) <==> a in records && rules.isPublic(a.address)
  {
    if records != [] {
      PublicMembers(rules, records[1..]);
      assert records == [records[0]] + records[1..];
    }
  }

  /** The first of the public records: those before it are not public. */
  lemma {:induction false} FirstPublic(rules: Rules, records: seq<ARecord>) returns (i: nat)
    requires Public(rules, records) != []
    ensures i < |records| && records[i] == Public(rules, records)[0] && rules.isPublic(records[i].address)
    ensures forall k :: 0 <= k < i ==> !rules.isPublic(records[k].address)
  {
    if rules.isPublic(records[0].address) {
      i := 0;
    } else {
      var later := FirstPublic(rules, records[1..]);
      i := later + 1;
    }
  }

  /** The shortest TTL of some records. */
  method ShortestTtl(records: seq<ARecord>) returns (ttl: int)
    requires records != []
    ensures exists a :: a in records && a.ttl == ttl
    ensures forall a :: a in records ==> ttl <= a.ttl
  {
    ttl := records[0].ttl;
    for i := 1 to |records|
      invariant exists a :: a in records && a.ttl == ttl
      invariant forall k :: 0 <= k < i ==> ttl <= records[k].ttl
    {
      ttl := Min(ttl, records[i].ttl);
      assert ttl == records[i].ttl ==> records[i] in records;
    }
  }

  /** What a lookup answers, of what the endpoints replied in turn. */
  ghost predicate Answering(rules: Rules, replies: seq<Parsed<seq<ARecord>>>, kept: Kept) {
    if forall k :: 0 <= k < |replies| ==> !Usable(rules, replies[k]) then kept == Kept(None, RETRY_S)
    else exists k: nat :: FromEndpoint(rules, replies, k, kept)
  }

  /** It is the first public address of the first usable reply, for that reply's shortest public TTL within bounds. */
  ghost predicate FromEndpoint(rules: Rules, replies: seq<Parsed<seq<ARecord>>>, k: nat, kept: Kept) {
    && k < |replies| && Usable(rules, replies[k])
    && (forall j :: 0 <= j < k ==> !Usable(rules, replies[j]))
    && (exists i: nat :: FirstIn(rules, replies[k].value, i, kept.address))
    && (exists a :: a in replies[k].value && rules.isPublic(a.address)
                    && kept.time == Min(Max(a.ttl, MIN_TTL_S), MAX_TTL_S))
    && (forall a :: a in replies[k].value && rules.isPublic(a.address) ==> kept.time <= Max(a.ttl, MIN_TTL_S))
    && MIN_TTL_S <= kept.time <= MAX_TTL_S
  }

  ghost predicate FirstIn(rules: Rules, records: seq<ARecord>, i: nat, address: Option<seq<Byte>>) {
    && i < |records| && rules.isPublic(records[i].address) && address == Some(records[i].address)
    && forall j :: 0 <= j < i ==> !rules.isPublic(records[j].address)
  }

  lemma AnswerIsPublic(rules: Rules, replies: seq<Parsed<seq<ARecord>>>, kept: Kept)
    requires Answering(rules, replies, kept)
    ensures MIN_TTL_S <= kept.time <= MAX_TTL_S
    ensures kept.address.None? ==> kept.time == RETRY_S
    ensures kept.address.Some? ==> rules.isPublic(kept.address.value)
  {
    if exists k: nat :: FromEndpoint(rules, replies, k, kept) {
      var k: nat :| FromEndpoint(rules, replies, k, kept);
      var i: nat :| FirstIn(rules, replies[k].value, i, kept.address);
    }
  }

  /** Ask each endpoint in turn until one gives a public address. */
  method LookUp(rules: Rules, replies: seq<Parsed<seq<ARecord>>>) returns (kept: Kept)
    ensures Answering(rules, replies, kept)
  {
    for k := 0 to |replies|
      invariant forall j :: 0 <= j < k ==> !Usable(rules, replies[j])
    {
      if replies[k].Bad? {
        continue;
      }
      var public := Public(rules, replies[k].value);
      PublicMembers(rules, replies[k].value);
      if public != [] {
        var ttl := ShortestTtl(public);
        kept := Kept(Some(public[0].address), Min(Max(ttl, MIN_TTL_S), MAX_TTL_S));
        ghost var i := FirstPublic(rules, replies[k].value);
        assert FirstIn(rules, replies[k].value, i, kept.address);
        assert FromEndpoint(rules, replies, k, kept);
        return;
      }
      assert forall i :: 0 <= i < |replies[k].value| ==> replies[k].value[i] in replies[k].value;
    }
    kept := Kept(None, RETRY_S);
  }

  /** A lookup that ended at a time, and what it answered. */
  datatype Lookup = Lookup(at: int, replies: seq<Parsed<seq<ARecord>>>, answer: Kept)

  class DohResolver {
    const rules: Rules
    var keptUntil: map<Host, Kept>
    /** The lookup each kept answer came from. */
    ghost var lookups: map<Host, Lookup>

    ghost predicate Valid()
      reads this
    {
      && keptUntil.Keys == lookups.Keys
      && forall host :: host in keptUntil ==>
           && Answering(rules, lookups[host].replies, lookups[host].answer)
           && keptUntil[host] == Kept(lookups[host].answer.address, lookups[host].at + lookups[host].answer.time)
    }

    constructor (rules: Rules)
      ensures Valid() && this.rules == rules && keptUntil == map[]
    {
      this.rules, keptUntil, lookups := rules, map[], map[];
    }

    /**
     The address to connect to. It is the answer of one lookup, either made now
     or less than its kept time ago; a kept one is used without asking, and a
     lookup is made exactly when there is none.
     */
    method Address(host: Host, now: int, replies: seq<Parsed<seq<ARecord>>>, later: int)
      returns (address: Option<seq<Byte>>, asked: bool)
      requires Valid() && now <= later
      modifies this
      ensures Valid()
      ensures rules.skips(host) ==> address == None && !asked && keptUntil == old(keptUntil)
      ensures !rules.skips(host) ==>
        (asked <==> !(host in old(keptUntil) && now < old(keptUntil[host]).time))
      ensures !rules.skips(host) ==> host in lookups && address == lookups[host].answer.address
      ensures asked ==> lookups == old(lookups)[host := Lookup(later, replies, lookups[host].answer)]
      ensures !asked ==> lookups == old(lookups) && keptUntil == old(keptUntil)
    {
      if rules.skips(host) {
        return None, false;
      }
      if host in keptUntil && keptUntil[host].time > now {
        return keptUntil[host].address, false;
      }
      var answer := LookUp(rules, replies);
      Keep(host, answer, later, replies);
      return answer.address, true;
    }

    /** Keep an answer, until its time from now is up. */
    method Keep(host: Host, answer: Kept, now: int, ghost replies: seq<Parsed<seq<ARecord>>>)
      requires Valid() && Answering(rules, replies, answer)
      modifies this
      ensures Valid() && lookups == old(lookups)[host := Lookup(now, replies, answer)]
    {
      keptUntil := keptUntil[host := Kept(answer.address, now + answer.time)];
      lookups := lookups[host := Lookup(now, replies, answer)];
    }

    /** Connecting to it failed: look the host up again next time. */
    method Forget(host: Host)
      requires Valid()
      modifies this
      ensures Valid() && keptUntil == old(keptUntil) - {host}
    {
      keptUntil := keptUntil - {host};
      lookups := lookups - {host};
    }

    /** No kept answer outlives the hour, and every address kept is public. */
    lemma KeptIsPublicAndRecent(host: Host)
      requires Valid() && host in keptUntil
      ensures lookups[host].at + 300 <= keptUntil[host].time <= lookups[host].at + 3600
      ensures keptUntil[host].address.None? ==> keptUntil[host].time == lookups[host].at + 300
      ensures keptUntil[host].address.Some? ==> rules.isPublic(keptUntil[host].address.value)
    {
      AnswerIsPublic(rules, lookups[host].replies, lookups[host].answer);
    }
  }
}
