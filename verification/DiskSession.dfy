/** Whole runs of the tool: one -create, any number of -insert commands, -extract of any file. */
module DiskSession {
  import opened Octets
  import opened DiskBytes
  import opened DiskFiles
  import opened DiskCommands
  import opened DiskExtract

  datatype Request = Request(file: seq<byte>, who: Owner, slot: Slot)

  predicate Fits(r: Request) {
    |r.file| <= MAXINT
  }

  /** -extract of the file in slot k, from an image file. */
  method Extract(image: seq<byte>, n: nat, m: nat, k: Slot, ghost files: map<Slot, FileRec>) returns (out: seq<byte>)
    requires |image| == n * BLOCK_SZ && n <= MAXBLOCKS && ImageOk(Blocks(image, n), m, files) && k in files
    ensures files[k].content <= out
    ensures out == files[k].content <==> |files[k].content| % BLOCK_SZ == 0
  {
    var raw := Load(image, n);
    out := ExtractFile(raw, n, m, k, files);
  }

  /** What each -insert must answer, from the room left, the slots taken and the sizes asked for. */
  function Plan(room: int, taken: set<Slot>, m: nat, rest: seq<Request>): (outcomes: seq<Outcome>)
    ensures |outcomes| == |rest|
  {
    if rest == [] then []
    else
      var cost := FileCost(|rest[0].file|);
      if room < cost then [NoSpace] + Plan(room, taken, m, rest[1..])
      else if !InSlots(rest[0].slot, m) || rest[0].slot in taken then [BadSlot] + Plan(room, taken, m, rest[1..])
      else [Done] + Plan(room - cost, taken + {rest[0].slot}, m, rest[1..])
  }

  lemma PlanStep(room: int, taken: set<Slot>, m: nat, rest: seq<Request>, j: nat, done: seq<Outcome>, res: Outcome,
                 room': int, taken': set<Slot>)
    requires j < |rest| && res != TooLarge
    requires res == NoSpace <==> room < FileCost(|rest[j].file|)
    requires res == BadSlot <==>
              room >= FileCost(|rest[j].file|)
              && (!InSlots(rest[j].slot, m) || rest[j].slot in taken)
    requires res == Done ==> room' == room - FileCost(|rest[j].file|) && taken' == taken + {rest[j].slot}
    requires res != Done ==> room' == room && taken' == taken
    ensures done + Plan(room, taken, m, rest[j..]) == done + [res] + Plan(room', taken', m, rest[j + 1..])
  {
    hide FileCost, InSlots;
    assert rest[j..][1..] == rest[j + 1..];
    assert Plan(room, taken, m, rest[j..]) == [res] + Plan(room', taken', m, rest[j + 1..]);
  }

  lemma PlanEnd(room: int, taken: set<Slot>, m: nat, rest: seq<Request>)
    ensures Plan(room, taken, m, rest[|rest|..]) == []
  {
  }

  /** Every file whose command succeeded is on the final image, whatever came after it; a failed
      command changes nothing. */
  method Session(n: nat, m: nat, first: Request, rest: seq<Request>)
    returns (created: Outcome, results: seq<Outcome>, image: seq<byte>, ghost files: map<Slot, FileRec>)
    requires 0 < m <= n <= MAXBLOCKS && Fits(first) && forall r :: r in rest ==> Fits(r)
    ensures created == Done ==> |image| == n * BLOCK_SZ && ImageOk(Blocks(image, n), m, files)
    ensures created == NoSpace <==> n - m < FileCost(|first.file|)
    ensures created == BadSlot <==> n - m >= FileCost(|first.file|) && !InSlots(first.slot, m)
    ensures created == Done || created == NoSpace || created == BadSlot
    ensures created == Done ==> results == Plan(n - m - FileCost(|first.file|), {first.slot}, m, rest)
    ensures created == Done ==> first.slot in files && files[first.slot].content == first.file
    ensures created == Done ==> forall i :: 0 <= i < |rest| && results[i] == Done ==>
              rest[i].slot in files && files[rest[i].slot].content == rest[i].file
    ensures created == Done ==> forall k :: k in files ==>
              k == first.slot || exists i :: 0 <= i < |rest| && results[i] == Done && rest[i].slot == k
  {
    hide ImageOk, WordsFor, Plan, FileCost, AllFoot, InSlots, Blocks;
    results := [];
    created, image, files := Create(n, m, first.file, first.who, first.slot);
    if created != Done { return; }
    assert rest[0..] == rest;
    for j := 0 to |rest|
      invariant |image| == n * BLOCK_SZ && ImageOk(Blocks(image, n), m, files) && |results| == j
      invariant first.slot in files && files[first.slot].content == first.file
      invariant forall i :: 0 <= i < j && results[i] == Done ==>
                  rest[i].slot in files && files[rest[i].slot].content == rest[i].file
      invariant results + Plan(n - m - |AllFoot(files)|, files.Keys, m, rest[j..])
                == Plan(n - m - FileCost(|first.file|), {first.slot}, m, rest)
      invariant forall k :: k in files ==>
                  k == first.slot || exists i :: 0 <= i < j && results[i] == Done && rest[i].slot == k
    {
      var res;
      ghost var before := files;
      assert rest[j] in rest;
      res, image, files := Insert(image, n, m, rest[j].file, rest[j].who, rest[j].slot, files);
      PlanStep(n - m - |AllFoot(before)|, before.Keys, m, rest, j, results, res, n - m - |AllFoot(files)|, files.Keys);
      results := results + [res];
      forall k | k in files
        ensures k == first.slot || exists i :: 0 <= i < j + 1 && results[i] == Done && rest[i].slot == k
      {
        if k in before && k != first.slot {
          var i :| 0 <= i < j && results[i] == Done && rest[i].slot == k;
        } else if k != first.slot {
          assert results[j] == Done && rest[j].slot == k;
        }
      }
    }
    PlanEnd(n - m - |AllFoot(files)|, files.Keys, m, rest);
  }
}
