/** Placing and preserving immutable history
    (scripts/ota_contract_gate.py, `_place_immutable_sftp_bytes` and
    `_preserve_immutable_sftp_bytes`). */
module Immutable {
  import opened Wrappers
  import opened Words
  import opened Sftp

  /** Reads a file back and refuses any difference. */
  method ReadBack(sftp: Server, path: Path, expected: Bytes) returns (r: Result<(), Error>)
    requires sftp.Valid()
    modifies sftp`clock, sftp`files, sftp`log
    ensures sftp.Beside({}) && sftp.NoSwap() && sftp.clock == old(sftp.clock) + 1 && sftp.files == old(sftp.Upcoming())
    ensures r.Ok? ==> Lookup(sftp.files, path) == Some(expected)
    ensures r.Err? ==> r.error == Io || (r.error == Refused && Lookup(sftp.files, path) != Some(expected))
    ensures r.Err? && sftp.Reliable() ==> Lookup(sftp.files, path) != Some(expected)
    ensures r.Ok? <==> sftp.faults(old(sftp.clock)).Works? && Lookup(sftp.files, path) == Some(expected)
  {
    hide Server.Valid, Server.Quiet, Server.Reliable, Adds;
    var readback :- sftp.ReadPresent(path);
    r := if readback == expected then Ok(()) else Err(Refused);
  }

  /** How many requests it takes to place a file. */
  function PlaceSteps(files: Files, p: Path): nat { if p in files then 2 else 3 }

  method PlaceImmutable(sftp: Server, staged: Path, final: Path, expected: Bytes) returns (r: Result<(), Error>)
    requires sftp.Valid() && Lookup(sftp.files, staged) == Some(expected)
    requires staged.place.Staging? && final.place.Published? && !FixedPath(final)
    modifies sftp`clock, sftp`files, sftp`log
    ensures sftp.Beside({staged, final}) && sftp.NoSwap()
    ensures r.Ok? ==> sftp.clock == old(sftp.clock) + PlaceSteps(old(sftp.files), final)
    ensures r.Ok? ==> Lookup(sftp.files, final) == Some(expected) && staged !in sftp.files
    ensures final in old(sftp.files) ==> Lookup(sftp.files, final) == Lookup(old(sftp.files), final)
    ensures r.Err? ==> r.error == Io || (r.error == Refused && !Placeable(old(sftp.files), final, expected))
    ensures (r.Ok? ==> Placeable(old(sftp.files), final, expected))
            && (r.Err? && sftp.Reliable() ==> !Placeable(old(sftp.files), final, expected))
  {
    hide Server.Valid, Server.Quiet, Server.Reliable, Adds;
    var current :- sftp.Read(final);
    assert final in old(sftp.files) <==> Lookup(old(sftp.files), final) != None;
    if current.None? {
      var renamed :- sftp.Rename(staged, final);
      assert Lookup(sftp.files, staged) == None;
      var same :- ReadBack(sftp, final, expected);
    } else if current.value == expected {
      var removed :- sftp.Remove(staged);
    } else {
      return Err(Refused);
    }
    r := Ok(());
  }

  method PreserveImmutable(sftp: Server, staged: Path, final: Path, expected: Bytes) returns (r: Result<(), Error>)
    requires sftp.Valid() && staged !in sftp.files
    requires staged.place in sftp.stages && staged.place.Staging?
    requires final.place.Published? && !FixedPath(final)
    modifies sftp`clock, sftp`files, sftp`log
    ensures sftp.Beside({staged, final}) && sftp.NoSwap()
    ensures r.Ok? ==> Lookup(sftp.files, final) == Some(expected) && staged !in sftp.files
    ensures final in old(sftp.files) ==> Lookup(sftp.files, final) == Lookup(old(sftp.files), final)
    ensures r.Err? ==> r.error == Io || (r.error == Refused && !Placeable(old(sftp.files), final, expected))
    ensures (r.Ok? ==> Placeable(old(sftp.files), final, expected))
            && (r.Err? && sftp.Reliable() ==> !Placeable(old(sftp.files), final, expected))
  {
    hide Server.Valid, Server.Quiet, Server.Reliable, Adds;
    var current :- sftp.Read(final);
    if current.Some? {
      return if current.value != expected then Err(Refused) else Ok(());
    }
    var written :- sftp.Write(staged, expected);
    var same :- ReadBack(sftp, staged, expected);
    r := PlaceImmutable(sftp, staged, final, expected);
  }
}
