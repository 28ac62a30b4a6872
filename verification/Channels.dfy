/**
 The stop and attach channels of a container. Sending on a full channel would
 block for ever and sending on, or closing, a closed channel would panic; these
 are preconditions here, so that the registry's code is proved never to do either.
 */
module Channels {
  /** A Go channel of capacity 1 that carries no data. */
  class Channel {
    var full: bool
    var closed: bool
    ghost var sends: nat
    ghost var closes: nat

    ghost predicate Unused()
      reads this
    {
      !full && !closed && sends == 0 && closes == 0
    }

    /** Signalled once and closed once; the signal may have been received. */
    ghost predicate Signalled()
      reads this
    {
      closed && sends == 1 && closes == 1
    }

    constructor ()
      ensures Unused()
    {
      full, closed, sends, closes := false, false, 0, 0;
    }

    method Send()
      requires !closed && !full
      modifies this
      ensures full && sends == old(sends) + 1
      ensures closed == old(closed) && closes == old(closes)
    {
      full, sends := true, sends + 1;
    }

    method Close()
      requires !closed
      modifies this
      ensures closed && closes == old(closes) + 1
      ensures full == old(full) && sends == old(sends)
    {
      closed, closes := true, closes + 1;
    }
  }

  /** The two channel lists of a container. */
  class Registry {
    var stopChannels: seq<Channel>
    var attachChannels: seq<Channel>
    ghost var registered: set<Channel>

    /** A listed channel is unused and listed once; every other registered channel was signalled exactly once. */
    ghost predicate Valid()
      reads this, registered
    {
      && (forall c :: c in stopChannels ==> c in registered && c.Unused() && c !in attachChannels)
      && (forall c :: c in attachChannels ==> c in registered && c.Unused())
      && (forall c :: c in registered && c !in stopChannels && c !in attachChannels ==> c.Signalled())
      && (forall i, j :: 0 <= i < j < |stopChannels| ==> stopChannels[i] != stopChannels[j])
      && (forall i, j :: 0 <= i < j < |attachChannels| ==> attachChannels[i] != attachChannels[j])
    }

    constructor ()
      ensures Valid() && registered == {} && stopChannels == [] && attachChannels == []
    {
      stopChannels, attachChannels, registered := [], [], {};
    }

    method AddStopChannel(c: Channel)
      requires Valid() && c !in registered && c.Unused()
      modifies this
      ensures Valid() && registered == old(registered) + {c}
      ensures stopChannels == old(stopChannels) + [c] && attachChannels == old(attachChannels)
    {
      stopChannels := stopChannels + [c];
      registered := registered + {c};
    }

    method AddAttachChannel(c: Channel)
      requires Valid() && c !in registered && c.Unused()
      modifies this
      ensures Valid() && registered == old(registered) + {c}
      ensures attachChannels == old(attachChannels) + [c] && stopChannels == old(stopChannels)
    {
      attachChannels := attachChannels + [c];
      registered := registered + {c};
    }

    /** Signals and closes each channel of a list, in order. */
    static method SignalAll(channels: seq<Channel>)
      requires forall c :: c in channels ==> c.Unused()
      requires forall i, j :: 0 <= i < j < |channels| ==> channels[i] != channels[j]
      modifies channels
      ensures forall c :: c in channels ==> c.Signalled() && c.full
    {
      for i := 0 to |channels|
        invariant forall j :: 0 <= j < i ==> channels[j].Signalled() && channels[j].full
        invariant forall j :: i <= j < |channels| ==> channels[j].Unused()
      {
        channels[i].Send();
        channels[i].Close();
      }
    }

    method SignalStop()
      requires Valid()
      modifies this, stopChannels
      ensures Valid() && registered == old(registered)
      ensures stopChannels == [] && attachChannels == old(attachChannels)
      ensures forall c :: c in old(stopChannels) ==> c.Signalled() && c.full
    {
      SignalAll(stopChannels);
      stopChannels := [];
    }

    method SignalDetach()
      requires Valid()
      modifies this, attachChannels
      ensures Valid() && registered == old(registered)
      ensures attachChannels == [] && stopChannels == old(stopChannels)
      ensures forall c :: c in old(attachChannels) ==> c.Signalled() && c.full
    {
      SignalAll(attachChannels);
      attachChannels := [];
    }
  }
}
