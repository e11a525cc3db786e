/** A lease crossing the wire: the leader sends a duration, the asker turns it back
    into a deadline on its own clock.

    Four clock readings are involved, all on one clock: the asker's `sent` before
    writing, the leader's `wired` when it computes the remaining life of a lease
    expiring at `expires`, the asker's `read` when the answer arrived, and the
    asker's `placed` when it adds what is left to the current time. */
module LeaseWire {
  import opened Basics

  /** The remaining life in whole milliseconds, as the grant message carries it. */
  function WireTtl(expires: Time, wired: Time): nat
  {
    Less(expires, wired) / MILLISECOND * MILLISECOND
  }

  /** The asker's deadline: its own round trip is taken off what it was told. */
  function HolderDeadline(sent: Time, ttl: nat, read: Time, placed: Time): Time
    requires sent <= read
  {
    placed + Less(ttl, read - sent)
  }

  /** The asker's side as it runs, one clock reading after another. */
  method PlaceLease(sent: Time, ttl: nat, read: Time, placed: Time) returns (deadline: Time)
    requires sent <= read <= placed
    ensures deadline == HolderDeadline(sent, ttl, read, placed)
  {
    var elapsed := read - sent;
    var remaining := 0;
    if ttl > elapsed {
      remaining := ttl - elapsed;
    }
    deadline := placed + remaining;
  }

  /** Whatever the delays, the holder's deadline is no later than the leader's own or the
      moment of arrival, give or take the pause between the asker's last two readings. */
  lemma DeadlineBound(sent: Time, expires: Time, wired: Time, read: Time, placed: Time)
    requires sent <= wired <= read <= placed
    ensures HolderDeadline(sent, WireTtl(expires, wired), read, placed)
         <= Max(expires, read) + (placed - read)
  {
  }

  /** Exactly when a lease that still has life outlasts the leader's record of it: the
      pause between the last two readings exceeds the request's own journey out plus
      what rounding to milliseconds dropped. */
  lemma OverholdsExactly(sent: Time, expires: Time, wired: Time, read: Time, placed: Time)
    requires sent <= wired <= read <= placed
    requires read - sent < WireTtl(expires, wired)
    ensures HolderDeadline(sent, WireTtl(expires, wired), read, placed) > expires
       <==> placed - read > (wired - sent) + (expires - wired) % MILLISECOND
  {
  }

  /** A pause no longer than the journey out never over-holds: the lease is gone by the
      leader's deadline, or was already spent when it was placed. */
  lemma PromptNeverOverholds(sent: Time, expires: Time, wired: Time, read: Time, placed: Time)
    requires sent <= wired <= read <= placed
    requires placed - read <= wired - sent
    ensures var deadline := HolderDeadline(sent, WireTtl(expires, wired), read, placed);
            deadline <= expires || deadline == placed
  {
  }
}
