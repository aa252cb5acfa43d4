/** Server-wide traffic counters. */
module Metrics {
  class Metrics {
    var packetsReceived: nat
    var packetsSent: nat
    var packetsDuplicate: nat
    var packetsInvalid: nat
    var packetsRejected: nat
    var packetsUnverified: nat
    var packetsDroppedSlow: nat
    var bytesReceived: nat
    var bytesSent: nat

    constructor ()
      ensures packetsReceived == packetsSent == packetsDuplicate == packetsInvalid == packetsRejected == 0
      ensures packetsUnverified == packetsDroppedSlow == bytesReceived == bytesSent == 0
    {
      packetsReceived, packetsSent, packetsDuplicate, packetsInvalid, packetsRejected := 0, 0, 0, 0, 0;
      packetsUnverified, packetsDroppedSlow, bytesReceived, bytesSent := 0, 0, 0, 0;
    }
  }
}
