/** The connection status and the keep-alive timer. */
module ClientStatus {
  import opened Bytes
  import opened QoS2
  import opened RetransmissionQueue
  import opened PacketIdentifiers
  import opened SendPackets
  import opened Ticks

  datatype Status = Disconnected | ConnectPending | Connected | WaitForPingResp

  /** The tick rate leaves room for the longest keep-alive time, and no packet of
      the configured size needs more than three length bytes. */
  predicate SizesOk(hz: nat, maxPacketSize: nat) {
    0 < hz < 0x8000 && 128 <= maxPacketSize < BODY_LIMIT
  }

  /** Disconnected exactly when there is no socket, and then nothing is pending. */
  ghost predicate ConnectionInv(socket: bool, status: Status, everConnected: bool, queue: seq<Packet>, store: seq<u16>,
                                nextId: u16, allocations: nat) {
    && (socket <==> status != Disconnected)
    && (status == Disconnected ==> queue == [] && store == [])
    && (status != Disconnected ==> everConnected && nextId == IdOf(allocations))
    && NoDuplicates(store)
  }

  /** The timer, from the first `Connect` on. */
  predicate TimerInv(status: Status, timerRunning: bool, keepAlive: u16) {
    && (status == Disconnected ==> !timerRunning)
    && (status == WaitForPingResp ==> timerRunning)
    && (timerRunning ==> keepAlive > 0 && (status == Connected || status == WaitForPingResp))
  }

  /** The deadline of a timer that is being set is within half a counter period, where
      the signed comparison is right. */
  lemma DeadlineIsNear(hz: nat, maxPacketSize: nat, keepAlive: u16, now: nat)
    requires SizesOk(hz, maxPacketSize)
    ensures Close(now + keepAlive * hz, now) && Close(now + 5 * hz, now)
  {
    KeepAliveFits(keepAlive, hz);
  }
}
