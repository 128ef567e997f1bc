/** One turn of the watchdog on the gateway's two tables. */
module Watchdog {
  import opened Machine
  import NodeTable
  import OutOfRange
  import Heartbeat

  datatype Verdict = NoScanner | MeshAlive | RetryLater | Wiped

  class Dog {
    const table: NodeTable.Table
    const zones: OutOfRange.Zones

    ghost predicate Valid()
      reads zones.tracks
    {
      table.Valid() && zones.Valid()
    }

    constructor (t: NodeTable.Table, z: OutOfRange.Zones)
      requires t.Valid() && z.Valid()
      ensures Valid() && table == t && zones == z
    {
      table, zones := t, z;
    }

    /** `snap` and `current` are the mesh counter at the start and the end of the window, and the
        sequences say of each reset attempt whether an OTA runs and whether sending works. Both
        tables are as they were unless a window with a configured scanner counted nothing and at
        least one RESET_CMD went out while no OTA was running; then both are empty. */
    method Turn(snap: uint32, current: uint32, otaRunning: seq<bool>, sendWorks: seq<bool>, eraseWorks: bool)
      returns (v: Verdict)
      requires Valid() && |otaRunning| == |sendWorks| == Heartbeat.RESET_TRIES
      modifies table.nodes, table`nvs, zones.tracks
      ensures Valid()
      ensures v == Wiped <==>
        && Heartbeat.HasConfiguredScanner(old(table.nodes[..])) && snap == current
        && exists i :: 0 <= i < Heartbeat.RESET_TRIES && !otaRunning[i] && sendWorks[i]
      ensures v != Wiped ==>
        table.nodes[..] == old(table.nodes[..]) && table.nvs == old(table.nvs) && zones.tracks[..] == old(zones.tracks[..])
      ensures v == Wiped ==>
        && table.nodes[..] == NodeTable.Erased() && zones.tracks[..] == OutOfRange.Untracked()
        && table.nvs == if eraseWorks then None else old(table.nvs)
    {
      var configured := Heartbeat.FindConfiguredScanner(table.nodes);
      if !configured { return NoScanner; }
      if current != snap { return MeshAlive; }
      var sentOk, _ := Heartbeat.ResetCycle(otaRunning, sendWorks);
      if sentOk == 0 { return RetryLater; }
      table.Clear(eraseWorks);
      zones.ResetAll();
      v := Wiped;
    }
  }
}
