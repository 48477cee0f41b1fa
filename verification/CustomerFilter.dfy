/** What `recCustomerPack` publishes of the packages it receives. */
module CustomerFilter {

  import opened SharedData

  /** One return of `recv`, or the loss of the connection and the next `accept`. */
  datatype Recv = Closed | Failed | Packet(package: Package)

  /** The id of the packet before, on the same connection; the sentinel at its start. */
  function PreviousId(received: seq<Recv>): DmId {
    if received == [] then UINT32_MAX
    else
      match received[|received| - 1]
      case Closed => UINT32_MAX
      case Failed => PreviousId(received[..|received| - 1])
      case Packet(p) => p.dmId
  }

  /** The packets whose id differs from that of the packet before. */
  function Destutter(received: seq<Recv>): (kept: seq<Package>)
    ensures |kept| <= |received|
  {
    if received == [] then []
    else
      var front, r := received[..|received| - 1], received[|received| - 1];
      Destutter(front) + if r.Packet? && r.package.dmId != PreviousId(front) then [r.package] else []
  }

  lemma Push(received: seq<Recv>, r: Recv)
    ensures Destutter(received + [r])
         == Destutter(received)
            + if r.Packet? && r.package.dmId != PreviousId(received) then [r.package] else []
    ensures PreviousId(received + [r])
         == if r.Closed? then UINT32_MAX else if r.Packet? then r.package.dmId else PreviousId(received)
  {
    assert (received + [r])[..|received|] == received;
  }

  lemma {:induction false} KeptWasReceived(received: seq<Recv>, p: Package)
    requires p in Destutter(received)
    ensures Packet(p) in received
  {
    if received != [] && received[|received| - 1] != Packet(p) {
      KeptWasReceived(received[..|received| - 1], p);
    }
  }

  /** The receiving loop: `idRecord` remembers an id instead of a packet, and only when it changes. */
  method RecCustomerPack(received: seq<Recv>) returns (published: seq<Package>)
    ensures published == Destutter(received)
  {
    published := [];
    var idRecord := UINT32_MAX;
    for i := 0 to |received|
      invariant published == Destutter(received[..i])
      invariant idRecord == PreviousId(received[..i])
    {
      Push(received[..i], received[i]);
      assert received[..i + 1] == received[..i] + [received[i]];
      match received[i]
      case Failed =>
      case Closed =>
        idRecord := UINT32_MAX;
      case Packet(local) =>
        if local.dmId != idRecord {
          idRecord := local.dmId;
          published := published + [local];
        }
    }
    assert received[..|received|] == received;
  }

  ghost predicate OneConnection(received: seq<Recv>) {
    forall r | r in received :: !r.Closed?
  }

  /** On one connection no two adjacent published ids are equal, the first is not the sentinel, and the
      latest published id is always the latest received one: nothing but repetition is filtered. */
  lemma {:induction false} PublishedIdsAlternate(received: seq<Recv>)
    requires OneConnection(received)
    ensures var kept := Destutter(received);
      && (forall i | 0 < i < |kept| :: kept[i - 1].dmId != kept[i].dmId)
      && (kept != [] ==> kept[0].dmId != 0xFFFF_FFFF)
      && PreviousId(received) == if kept == [] then 0xFFFF_FFFF else kept[|kept| - 1].dmId
  {
    if received == [] {
    } else {
      var front := received[..|received| - 1];
      assert forall r | r in front :: r in received;
      assert received[|received| - 1] in received;
      PublishedIdsAlternate(front);
    }
  }

  /** A failed `recv` changes nothing, wherever it occurs. */
  lemma {:induction false} FailuresAreIgnored(before: seq<Recv>, after: seq<Recv>)
    ensures Destutter(before + [Failed] + after) == Destutter(before + after)
    ensures PreviousId(before + [Failed] + after) == PreviousId(before + after)
  {
    if after == [] {
      assert before + [Failed] + after == before + [Failed] && before + after == before;
      Push(before, Failed);
    } else {
      var front, r := after[..|after| - 1], after[|after| - 1];
      FailuresAreIgnored(before, front);
      assert before + [Failed] + after == before + [Failed] + front + [r];
      assert before + after == before + front + [r];
      Push(before + [Failed] + front, r);
      Push(before + front, r);
    }
  }

  /** A new connection starts the filter afresh: what it publishes does not depend on the past. */
  lemma {:induction false} ReconnectRestarts(before: seq<Recv>, after: seq<Recv>)
    ensures Destutter(before + [Closed] + after) == Destutter(before) + Destutter(after)
    ensures PreviousId(before + [Closed] + after) == PreviousId(after)
  {
    if after == [] {
      assert before + [Closed] + after == before + [Closed];
      Push(before, Closed);
    } else {
      var front, r := after[..|after| - 1], after[|after| - 1];
      ReconnectRestarts(before, front);
      assert before + [Closed] + after == before + [Closed] + front + [r];
      Push(before + [Closed] + front, r);
    }
  }
}
