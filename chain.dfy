/**
 * The chain maintenance of the App component (src/App.jsx): the validity
 * vector, the payload edit and the mining request, both followed by the
 * forward re-link of every later block, and the initial three-block chain.
 *
 * The chain is a sequence of `Block` objects.  The source copies the array
 * (`[...prevChain]`) and then mutates the blocks it shares with the old
 * array, so the slots are never reassigned and only the blocks change.
 * Each operation is specified by a function over the blocks' values.
 */
module Chain {
  import opened Wrappers
  import opened Payload
  import opened Blocks

  /** `"0".repeat(d)` */
  function Zeros(d: nat): (z: string)
    ensures |z| == d && forall i :: 0 <= i < d ==> z[i] == '0'
  {
    seq(d, _ => '0')
  }

  /** The hash starts with `d` zero characters. */
  predicate MeetsDifficulty(h: string, d: nat) {
    StartsWith(h, Zeros(d))
  }

  /** `validateChain(chain, difficulty)` over the blocks' current values. */
  function Validate(s: seq<BlockValue>, d: nat): (r: seq<bool>)
    ensures |r| == |s|
    ensures forall i :: 0 <= i < |s| ==>
      (r[i] <==> MeetsDifficulty(s[i].hash, d) && (i == 0 || s[i].previousHash == s[i - 1].hash))
  {
    seq(|s|, i requires 0 <= i < |s| =>
      MeetsDifficulty(s[i].hash, d) && (i == 0 || s[i].previousHash == s[i - 1].hash))
  }

  /** Block 0 is judged on its own hash only, whatever its `previousHash` holds. */
  lemma GenesisIgnoresPreviousHash(s: seq<BlockValue>, d: nat, p: string)
    requires |s| > 0
    ensures Validate(s[0 := s[0].(previousHash := p)], d)[0] == Validate(s, d)[0]
  {
  }

  /** The verdict on block `i` depends on blocks `0..i` alone. */
  lemma ValidityIsLocal(s: seq<BlockValue>, t: seq<BlockValue>, d: nat, i: nat)
    requires i < |s| && i < |t| && s[..i + 1] == t[..i + 1]
    ensures Validate(s, d)[i] == Validate(t, d)[i]
  {
  }

  /** The whole vector is true exactly when every hash meets the difficulty and every link holds. */
  lemma ChainValidIff(s: seq<BlockValue>, d: nat)
    ensures (forall i :: 0 <= i < |s| ==> Validate(s, d)[i]) <==>
      (forall i :: 0 <= i < |s| ==> MeetsDifficulty(s[i].hash, d)) &&
      (forall i :: 0 < i < |s| ==> s[i].previousHash == s[i - 1].hash)
  {
    var v := Validate(s, d);
    if forall i :: 0 <= i < |s| ==> v[i] {
      forall i | 0 <= i < |s|
        ensures MeetsDifficulty(s[i].hash, d) && (i > 0 ==> s[i].previousHash == s[i - 1].hash)
      {
        assert v[i];
      }
    }
  }

  /** A hash that starts with "0000" meets every difficulty up to 4. */
  lemma MinePrefixMeetsDifficulty(h: string, d: nat)
    requires d <= 4 && StartsWith(h, MinePrefix)
    ensures MeetsDifficulty(h, d)
  {
  }

  /** The re-link step of src/App.jsx:60-63 (and 78-81): point a block at `prevHash`, rehash with the old nonce, then drop the proof of work. */
  function Relinked(sha: HashFn, b: BlockValue, prevHash: string): BlockValue {
    var b' := b.(previousHash := prevHash);
    b'.(hash := Digest(sha, b'), nonce := 0, miningTime := None)
  }

  /** The forward re-link: blocks `from`, `from + 1`, ... in order, each to its predecessor's hash as it now is. */
  function CascadeFrom(sha: HashFn, s: seq<BlockValue>, from: nat): (r: seq<BlockValue>)
    requires 1 <= from
    ensures |r| == |s|
    ensures forall j :: 0 <= j < from && j < |s| ==> r[j] == s[j]
    decreases |s| - from
  {
    if from >= |s| then s
    else CascadeFrom(sha, s[from := Relinked(sha, s[from], s[from - 1].hash)], from + 1)
  }

  /** One step of the re-link, as the loop takes it. */
  lemma CascadeStep(sha: HashFn, s: seq<BlockValue>, i: nat)
    requires 1 <= i < |s|
    ensures CascadeFrom(sha, s, i) == CascadeFrom(sha, s[i := Relinked(sha, s[i], s[i - 1].hash)], i + 1)
  {
  }

  /** Past the end the re-link changes nothing. */
  lemma CascadeDone(sha: HashFn, s: seq<BlockValue>, i: nat)
    requires 1 <= i && |s| <= i
    ensures CascadeFrom(sha, s, i) == s
  {
  }

  /** Every re-linked block points at its predecessor, is hashed with its old nonce and is left unmined. */
  lemma {:induction false} CascadeRelinks(sha: HashFn, s: seq<BlockValue>, from: nat, i: nat)
    requires 1 <= from <= i < |s|
    ensures var r := CascadeFrom(sha, s, from);
      r[i].previousHash == r[i - 1].hash && r[i].nonce == 0 && r[i].miningTime == None &&
      r[i].index == s[i].index && r[i].timestamp == s[i].timestamp && r[i].data == s[i].data &&
      r[i].hash == sha(s[i].index, s[i].timestamp, s[i].data, r[i - 1].hash, s[i].nonce)
    decreases |s| - from
  {
    var s' := s[from := Relinked(sha, s[from], s[from - 1].hash)];
    assert CascadeFrom(sha, s, from) == CascadeFrom(sha, s', from + 1);
    if i > from {
      CascadeRelinks(sha, s', from + 1, i);
    }
  }

  /** After the re-link the verdicts before `from` are unchanged and every later block is judged on its hash alone. */
  lemma CascadeValidity(sha: HashFn, s: seq<BlockValue>, from: nat, d: nat)
    requires 1 <= from
    ensures var r := CascadeFrom(sha, s, from);
      (forall j :: 0 <= j < from && j < |s| ==> Validate(r, d)[j] == Validate(s, d)[j]) &&
      (forall i :: from <= i < |s| ==> (Validate(r, d)[i] <==> MeetsDifficulty(r[i].hash, d)))
  {
    var r := CascadeFrom(sha, s, from);
    forall i | from <= i < |s| ensures r[i].previousHash == r[i - 1].hash {
      CascadeRelinks(sha, s, from, i);
    }
  }

  /** `handleChange(k, field, value)` on the blocks' values. */
  function Changed(sha: HashFn, s: seq<BlockValue>, k: nat, field: string, value: JsValue): seq<BlockValue> {
    if k < |s| then CascadeFrom(sha, s[k := Updated(sha, s[k], Put(s[k].data, field, value))], k + 1)
    else s
  }

  /** What an edit does to the chain. */
  lemma ChangeFacts(sha: HashFn, s: seq<BlockValue>, k: nat, field: string, value: JsValue)
    ensures var r := Changed(sha, s, k, field, value);
      |r| == |s| &&
      (forall j :: 0 <= j < k && j < |s| ==> r[j] == s[j]) &&
      (k < |s| ==> r[k] == Updated(sha, s[k], Put(s[k].data, field, value))) &&
      (forall i :: k < i < |s| ==>
        r[i].previousHash == r[i - 1].hash && r[i].nonce == 0 && r[i].miningTime == None &&
        r[i].index == s[i].index && r[i].timestamp == s[i].timestamp && r[i].data == s[i].data)
  {
    if k < |s| {
      var s' := s[k := Updated(sha, s[k], Put(s[k].data, field, value))];
      var r := CascadeFrom(sha, s', k + 1);
      assert r == Changed(sha, s, k, field, value);
      forall i | k < i < |s|
        ensures r[i].previousHash == r[i - 1].hash && r[i].nonce == 0 && r[i].miningTime == None &&
          r[i].index == s[i].index && r[i].timestamp == s[i].timestamp && r[i].data == s[i].data
      {
        CascadeRelinks(sha, s', k + 1, i);
        assert s'[i] == s[i];
      }
    }
  }

  /** The edited block holds the new value in `field` and every other field as before. */
  lemma ChangeEditsOneField(sha: HashFn, s: seq<BlockValue>, k: nat, field: string, value: JsValue, other: string)
    requires k < |s| && other != field
    ensures var r := Changed(sha, s, k, field, value);
      Lookup(r[k].data, field) == Some(value) && Lookup(r[k].data, other) == Lookup(s[k].data, other)
  {
    PutLookup(s[k].data, field, value);
    PutKeepsOthers(s[k].data, field, value, other);
  }

  /**
   * Earlier verdicts survive an edit; the edited block keeps its link and is
   * judged on its new hash, and every later block on its hash alone.
   */
  lemma ChangeValidity(sha: HashFn, s: seq<BlockValue>, k: nat, field: string, value: JsValue, d: nat)
    ensures var r := Changed(sha, s, k, field, value);
      (forall j :: 0 <= j < k && j < |s| ==> Validate(r, d)[j] == Validate(s, d)[j]) &&
      (k < |s| ==> (Validate(r, d)[k] <==>
        MeetsDifficulty(r[k].hash, d) && (k == 0 || s[k].previousHash == s[k - 1].hash))) &&
      (forall i :: k < i < |s| ==> (Validate(r, d)[i] <==> MeetsDifficulty(r[i].hash, d)))
  {
    if k < |s| {
      var s' := s[k := Updated(sha, s[k], Put(s[k].data, field, value))];
      var r := CascadeFrom(sha, s', k + 1);
      assert r == Changed(sha, s, k, field, value);
      forall i | k < i < |s| ensures Validate(r, d)[i] <==> MeetsDifficulty(r[i].hash, d) {
        CascadeRelinks(sha, s', k + 1, i);
      }
      forall j | 0 <= j < k
        ensures Validate(s', d)[j] == Validate(s, d)[j]
      {
        ValidityIsLocal(s', s, d, j);
      }
    }
  }

  /** An edit keeps every payload an object with one entry per key. */
  lemma ChangeKeepsDistinctKeys(sha: HashFn, s: seq<BlockValue>, k: nat, field: string, value: JsValue)
    requires forall i :: 0 <= i < |s| ==> DistinctKeys(s[i].data)
    ensures var r := Changed(sha, s, k, field, value);
      forall i :: 0 <= i < |r| ==> DistinctKeys(r[i].data)
  {
    ChangeFacts(sha, s, k, field, value);
    if k < |s| {
      PutKeepsDistinct(s[k].data, field, value);
    }
  }

  /** `mineBlockAtIndex(k)` on the blocks' values, with the nonce the search stopped at. */
  function MinedChain(sha: HashFn, s: seq<BlockValue>, k: nat, nonce: nat, elapsed: real): seq<BlockValue>
    requires k < |s|
  {
    CascadeFrom(sha, s[k := Mined(sha, s[k], nonce, elapsed)], k + 1)
  }

  /** What a mining request does to the chain. */
  lemma MineFacts(sha: HashFn, s: seq<BlockValue>, k: nat, nonce: nat, elapsed: real)
    requires k < |s| && Solves(sha, s[k], nonce)
    ensures var r := MinedChain(sha, s, k, nonce, elapsed);
      |r| == |s| &&
      (forall j :: 0 <= j < k ==> r[j] == s[j]) &&
      StartsWith(r[k].hash, MinePrefix) && r[k].hash == Digest(sha, r[k]) && r[k].miningTime.Some? &&
      r[k].previousHash == s[k].previousHash && r[k].data == s[k].data &&
      (forall i :: k < i < |s| ==>
        r[i].previousHash == r[i - 1].hash && r[i].nonce == 0 && r[i].miningTime == None &&
        r[i].index == s[i].index && r[i].timestamp == s[i].timestamp && r[i].data == s[i].data)
  {
    var s' := s[k := Mined(sha, s[k], nonce, elapsed)];
    var r := CascadeFrom(sha, s', k + 1);
    assert r == MinedChain(sha, s, k, nonce, elapsed);
    forall i | k < i < |s|
      ensures r[i].previousHash == r[i - 1].hash && r[i].nonce == 0 && r[i].miningTime == None &&
        r[i].index == s[i].index && r[i].timestamp == s[i].timestamp && r[i].data == s[i].data
    {
      CascadeRelinks(sha, s', k + 1, i);
      assert s'[i] == s[i];
    }
  }

  /**
   * Mining block `k` of a chain whose blocks before `k` are valid, and whose
   * block `k` is linked, leaves blocks `0..k` valid at any difficulty up to 4.
   * Applied for k = 0, 1, 2, ... it makes the whole chain valid: each step
   * re-links block `k + 1` for the next one.
   */
  lemma MineExtendsValidPrefix(sha: HashFn, s: seq<BlockValue>, k: nat, nonce: nat, elapsed: real, d: nat)
    requires k < |s| && Solves(sha, s[k], nonce) && d <= 4
    requires forall j :: 0 <= j < k ==> Validate(s, d)[j]
    requires k == 0 || s[k].previousHash == s[k - 1].hash
    ensures var r := MinedChain(sha, s, k, nonce, elapsed);
      (forall j :: 0 <= j <= k ==> Validate(r, d)[j]) &&
      (k + 1 < |s| ==> r[k + 1].previousHash == r[k].hash)
  {
    var r := MinedChain(sha, s, k, nonce, elapsed);
    MineFacts(sha, s, k, nonce, elapsed);
    MinePrefixMeetsDifficulty(r[k].hash, d);
    forall j | 0 <= j < k ensures Validate(r, d)[j] {
      ValidityIsLocal(r, s, d, j);
    }
  }

  /**
   * `mineBlock` is handed the app's difficulty but searches for "0000"
   * regardless: at difficulty 5 a freshly mined block can still be judged
   * invalid.
   */
  lemma MiningIgnoresDifficulty()
    ensures var sha: HashFn := (i, t, p, h, n) => "0000f";
      var s := [Created(sha, 1, "t", [], "0")];
      Solves(sha, s[0], 0) && !Validate(MinedChain(sha, s, 0, 0, 0.0), 5)[0]
  {
    var sha: HashFn := (i, t, p, h, n) => "0000f";
    var s := [Created(sha, 1, "t", [], "0")];
    var r := MinedChain(sha, s, 0, 0, 0.0);
    assert r[0].hash == "0000f";
    assert r[0].hash[..5] != Zeros(5) by {
      assert r[0].hash[4] == 'f';
    }
  }

  /** The abstraction function: the chain's blocks' states, position by position. */
  function Snapshot(chain: seq<Block>): (s: seq<BlockValue>)
    reads chain
    ensures |s| == |chain| && forall i :: 0 <= i < |chain| ==> s[i] == chain[i].Value()
  {
    seq(|chain|, i reads chain requires 0 <= i < |chain| => chain[i].Value())
  }

  /** No block object appears twice in the chain. */
  ghost predicate Distinct(chain: seq<Block>) {
    forall i, j :: 0 <= i < j < |chain| ==> chain[i] != chain[j]
  }

  /** The re-link step on block `i` (src/App.jsx:60-63 and 78-81). */
  method RelinkBlock(sha: HashFn, chain: seq<Block>, i: nat)
    requires 0 < i < |chain| && Distinct(chain)
    modifies chain[i]
    ensures var s := old(Snapshot(chain)); Snapshot(chain) == s[i := Relinked(sha, s[i], s[i - 1].hash)]
  {
    chain[i].previousHash := chain[i - 1].hash;
    chain[i].hash := chain[i].CalculateHash(sha);
    chain[i].nonce := 0;
    chain[i].miningTime := None;
  }

  /**
   * `handleChange(k, field, raw)`: write the (coerced) value into block k's
   * payload through `updateData`, re-link every later block, and return the
   * new validity vector.  `toNumber` is JavaScript's `Number`.
   */
  method HandleChange(sha: HashFn, chain: seq<Block>, k: nat, field: string, raw: string,
                      toNumber: string -> int, difficulty: nat) returns (validity: seq<bool>)
    requires Distinct(chain)
    modifies chain
    ensures Snapshot(chain) == Changed(sha, old(Snapshot(chain)), k, field, Coerce(field, raw, toNumber))
    ensures validity == Validate(Snapshot(chain), difficulty)
  {
    ghost var s0 := Snapshot(chain);
    ghost var goal := Changed(sha, s0, k, field, Coerce(field, raw, toNumber));
    var i := k;
    while i < |chain|
      invariant i == k || k < i <= |chain|
      invariant i == k ==> Snapshot(chain) == s0
      invariant k < i ==> k < |s0| && CascadeFrom(sha, Snapshot(chain), i) == goal
    {
      if i == k {
        var newData := Put(chain[i].data, field, Coerce(field, raw, toNumber));
        chain[i].UpdateData(sha, newData);
        assert Snapshot(chain) == s0[k := Updated(sha, s0[k], newData)];
      } else {
        ghost var before := Snapshot(chain);
        RelinkBlock(sha, chain, i);
        CascadeStep(sha, before, i);
      }
      i := i + 1;
    }
    if k < i {
      CascadeDone(sha, Snapshot(chain), i);
    }
    validity := Validate(Snapshot(chain), difficulty);
  }

  /** The loop of src/App.jsx:77-82: re-link blocks `from`, `from + 1`, ... to the end. */
  method RelinkFrom(sha: HashFn, chain: seq<Block>, from: nat)
    requires 1 <= from && Distinct(chain)
    modifies chain
    ensures Snapshot(chain) == CascadeFrom(sha, old(Snapshot(chain)), from)
  {
    ghost var goal := CascadeFrom(sha, Snapshot(chain), from);
    var i := from;
    while i < |chain|
      invariant from <= i
      invariant CascadeFrom(sha, Snapshot(chain), i) == goal
    {
      ghost var before := Snapshot(chain);
      RelinkBlock(sha, chain, i);
      CascadeStep(sha, before, i);
      i := i + 1;
    }
    CascadeDone(sha, Snapshot(chain), i);
  }

  /**
   * `mineBlockAtIndex(k)`: mine block k (the source passes the difficulty,
   * which `mineBlock` ignores), re-link every later block, and return the
   * new validity vector.
   */
  method MineBlockAtIndex(sha: HashFn, chain: seq<Block>, k: nat, difficulty: nat,
                          startTime: real, endTime: real, ghost bound: nat) returns (validity: seq<bool>)
    requires Distinct(chain) && k < |chain|
    requires bound <= MaxSafeNonce && Solves(sha, chain[k].Value(), bound)
    modifies chain
    ensures LeastSolution(sha, old(chain[k].Value()), chain[k].nonce)
    ensures Snapshot(chain) == MinedChain(sha, old(Snapshot(chain)), k, chain[k].nonce, endTime - startTime)
    ensures validity == Validate(Snapshot(chain), difficulty)
  {
    ghost var s0 := Snapshot(chain);
    chain[k].MineBlock(sha, startTime, endTime, bound);
    ghost var nonce := chain[k].nonce;
    ghost var mined := Mined(sha, s0[k], nonce, endTime - startTime);
    assert LeastSolution(sha, s0[k], nonce);
    assert Snapshot(chain) == s0[k := mined];
    RelinkFrom(sha, chain, k + 1);
    assert Snapshot(chain)[k] == s0[k := mined][k] == mined;
    assert chain[k].Value() == mined;
    validity := Validate(Snapshot(chain), difficulty);
  }

  const DefaultPublicKey: string := "0x0000->0x0000"

  /** `{ amount: 0, to: defaultPublicKey }` */
  function InitialData(): Record {
    [Entry("amount", Num(0)), Entry("to", Str(DefaultPublicKey))]
  }

  /** The chain built in the `useEffect` body, with its three clock readings. */
  function Genesis(sha: HashFn, t1: string, t2: string, t3: string): seq<BlockValue> {
    var b1 := Created(sha, 1, t1, InitialData(), "0");
    var b2 := Created(sha, 2, t2, InitialData(), b1.hash);
    var b3 := Created(sha, 3, t3, InitialData(), b2.hash);
    [b1, b2, b3]
  }

  /** Every payload of the initial chain is an object with one entry per key. */
  lemma GenesisDistinctKeys(sha: HashFn, t1: string, t2: string, t3: string)
    ensures forall i :: 0 <= i < 3 ==> DistinctKeys(Genesis(sha, t1, t2, t3)[i].data)
  {
  }

  /** The initial chain is linked throughout, so each verdict rests on the hash alone. */
  lemma GenesisFacts(sha: HashFn, t1: string, t2: string, t3: string, d: nat)
    ensures var s := Genesis(sha, t1, t2, t3);
      |s| == 3 && s[0].index == 1 && s[1].index == 2 && s[2].index == 3 &&
      s[0].previousHash == "0" &&
      (forall i :: 0 < i < 3 ==> s[i].previousHash == s[i - 1].hash) &&
      (forall i :: 0 <= i < 3 ==> s[i].nonce == 0 && s[i].miningTime == None && s[i].hash == Digest(sha, s[i])) &&
      (forall i :: 0 <= i < 3 ==> (Validate(s, d)[i] <==> MeetsDifficulty(s[i].hash, d)))
  {
  }

  /**
   * The `useEffect` body: three blocks, each linked to its predecessor's
   * hash, and the validity vector of the result.  The source hands the
   * constructor a fifth argument, the difficulty, which it does not take.
   */
  method InitialChain(sha: HashFn, t1: string, t2: string, t3: string, difficulty: nat)
    returns (chain: seq<Block>, validity: seq<bool>)
    ensures |chain| == 3 && Distinct(chain)
    ensures forall i :: 0 <= i < 3 ==> fresh(chain[i])
    ensures Snapshot(chain) == Genesis(sha, t1, t2, t3)
    ensures validity == Validate(Snapshot(chain), difficulty)
  {
    var block1 := new Block(sha, 1, t1, InitialData(), "0");
    var block2 := new Block(sha, 2, t2, InitialData(), block1.hash);
    var block3 := new Block(sha, 3, t3, InitialData(), block2.hash);
    chain := [block1, block2, block3];
    validity := Validate(Snapshot(chain), difficulty);
  }
}
