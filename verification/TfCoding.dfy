/**
  Time-frequency flags: tf_encode of celt/celt_encoder.c and tf_decode of
  celt/celt_decoder.c.  Which flags are coded depends on the bits left, which
  both sides learn from ec_tell; the flags that no longer fit are clamped.
 */
module TfCoding {
  import opened ByteStreams
  import opened RangeTranscripts
  import RangeEncoder
  import RangeDecoder
  import opened RangeRoundTrip

  /** tf_select_table */
  function TfSelect(lm: nat, column: nat): int
    requires lm < 4 && column < 8
  {
    [[0, -1, 0, -1, 0, -1, 0, -1],
     [0, -1, 0, -2, 1, 0, 1, -1],
     [0, -2, 0, -3, 2, 0, 1, -1],
     [0, -2, 0, -3, 3, 0, 1, -1]][lm][column]
  }

  predicate Flags(want: seq<int>)
  {
    forall i :: 0 <= i < |want| ==> 0 <= want[i] <= 1
  }

  /** What the flag loop sends, and the flags both sides end up with. */
  datatype Plan = Plan(items: seq<Item>, coded: seq<int>)

  function FlagItem(want: int, curr: int, logp: nat): Item
  {
    Item(BitLogp(logp), if want != curr then 1 else 0)
  }

  function Scan(st: State, budget: int, logp: nat, later: nat, want: seq<int>, curr: int): (p: Plan)
    requires StateOk(st) && 1 <= logp <= 23 && 1 <= later <= 23 && Flags(want) && 0 <= curr <= 1
    ensures AllCodable(p.items) && |p.coded| == |want| && Flags(p.coded)
    decreases |want|
  {
    if want == [] then Plan([], [])
    else if StateTell(st) + logp <= budget then
      var item := FlagItem(want[0], curr, logp);
      var rest := Scan(Next(st, item.model, item.value), budget, later, later, want[1..], want[0]);
      Plan([item] + rest.items, [want[0]] + rest.coded)
    else
      var rest := Scan(st, budget, later, later, want[1..], curr);
      Plan(rest.items, [curr] + rest.coded)
  }

  /** Everything tf_encode sends and leaves behind. */
  datatype TfResult = TfResult(items: seq<Item>, flags: seq<int>, select: int)

  function Reserves(st: State, budget: int, transient: bool, lm: nat): bool
  {
    lm > 0 && StateTell(st) + (if transient then 2 else 4) + 1 <= budget
  }

  function Column(transient: bool, select: int, flag: int): nat
    requires 0 <= select <= 1 && 0 <= flag <= 1
  {
    (if transient then 4 else 0) + 2 * select + flag
  }

  function SelectItem(select: int): Item
  {
    Item(BitLogp(1), select)
  }

  /** Whether the two settings of tf_select would differ. */
  predicate SelectMatters(lm: nat, transient: bool, changed: bool)
    requires lm < 4
  {
    var flag := if changed then 1 else 0;
    TfSelect(lm, Column(transient, 0, flag)) != TfSelect(lm, Column(transient, 1, flag))
  }

  predicate AnySet(flags: seq<int>)
  {
    exists i :: 0 <= i < |flags| && flags[i] != 0
  }

  function Outcome(st: State, budget: int, transient: bool, lm: nat, want: seq<int>, select: int): (r: TfResult)
    requires StateOk(st) && lm < 4 && Flags(want) && 0 <= select <= 1
    ensures AllCodable(r.items) && |r.flags| == |want| && Flags(r.flags) && 0 <= r.select <= 1
  {
    var reserve := Reserves(st, budget, transient, lm);
    var plan := Scan(st, if reserve then budget - 1 else budget, if transient then 2 else 4, if transient then 4 else 5, want, 0);
    if reserve && SelectMatters(lm, transient, AnySet(plan.coded))
    then TfResult(plan.items + [SelectItem(select)], plan.coded, select)
    else TfResult(plan.items, plan.coded, 0)
  }

  /** The resolution changes the flags stand for. */
  function Resolutions(lm: nat, transient: bool, r: TfResult): (t: seq<int>)
    requires lm < 4 && 0 <= r.select <= 1 && Flags(r.flags)
    ensures |t| == |r.flags|
  {
    seq(|r.flags|, i requires 0 <= i < |r.flags| => TfSelect(lm, Column(transient, r.select, r.flags[i])))
  }

  /** The first step of a plan that codes its flag, and of one that clamps it. */
  lemma ScanStep(st: State, budget: int, logp: nat, later: nat, want: seq<int>, curr: int)
    requires StateOk(st) && 1 <= logp <= 23 && 1 <= later <= 23 && Flags(want) && 0 <= curr <= 1
    requires want != []
    ensures var p := Scan(st, budget, logp, later, want, curr);
      if StateTell(st) + logp <= budget then
        var item := FlagItem(want[0], curr, logp);
        var rest := Scan(Next(st, item.model, item.value), budget, later, later, want[1..], want[0]);
        && p.items == [item] + rest.items && p.coded == [want[0]] + rest.coded
      else
        var rest := Scan(st, budget, later, later, want[1..], curr);
        && p.items == rest.items && p.coded == [curr] + rest.coded
  {
  }

  /** Midway through a scan: `sent` and `done` are behind, the plan for `want` ahead. */
  ghost predicate Along(st0: State, plan: Plan, sent: seq<Item>, done: seq<int>,
                        cur: State, budget: int, logp: nat, later: nat, want: seq<int>, curr: int)
  {
    && StateOk(st0) && StateOk(cur) && 1 <= logp <= 23 && 1 <= later <= 23 && Flags(want) && 0 <= curr <= 1
    && AllCodable(sent) && cur == RunFrom(st0, sent)
    && var rest := Scan(cur, budget, logp, later, want, curr);
       plan.items == sent + rest.items && plan.coded == done + rest.coded
  }

  lemma AlongCoded(st0: State, plan: Plan, sent: seq<Item>, done: seq<int>,
                   cur: State, budget: int, logp: nat, later: nat, want: seq<int>, curr: int)
    requires Along(st0, plan, sent, done, cur, budget, logp, later, want, curr) && want != []
    requires StateTell(cur) + logp <= budget
    ensures var item := FlagItem(want[0], curr, logp);
      && Codable(item.model, item.value)
      && Along(st0, plan, sent + [item], done + [want[0]], Next(cur, item.model, item.value),
               budget, later, later, want[1..], want[0])
  {
    hide RunFrom, Next, Scan;
    ScanStep(cur, budget, logp, later, want, curr);
    RunAppend(st0, sent, FlagItem(want[0], curr, logp));
  }

  lemma AlongClamped(st0: State, plan: Plan, sent: seq<Item>, done: seq<int>,
                     cur: State, budget: int, logp: nat, later: nat, want: seq<int>, curr: int)
    requires Along(st0, plan, sent, done, cur, budget, logp, later, want, curr) && want != []
    requires StateTell(cur) + logp > budget
    ensures Along(st0, plan, sent, done + [curr], cur, budget, later, later, want[1..], curr)
  {
    hide RunFrom, Next, Scan;
    ScanStep(cur, budget, logp, later, want, curr);
  }

  lemma AlongStart(cur: State, budget: int, logp: nat, later: nat, want: seq<int>)
    requires StateOk(cur) && 1 <= logp <= 23 && 1 <= later <= 23 && Flags(want)
    ensures Along(cur, Scan(cur, budget, logp, later, want, 0), [], [], cur, budget, logp, later, want, 0)
  {
    hide Scan;
    EmptyRun(cur);
  }

  lemma AlongEnd(st0: State, plan: Plan, sent: seq<Item>, done: seq<int>,
                 cur: State, budget: int, logp: nat, later: nat, curr: int)
    requires Along(st0, plan, sent, done, cur, budget, logp, later, [], curr)
    ensures AllCodable(plan.items) && plan.items == sent && plan.coded == done && cur == RunFrom(st0, plan.items)
  {
    hide RunFrom;
  }

  lemma AnyStep(done: seq<int>, x: int)
    ensures AnySet(done + [x]) <==> AnySet(done) || x != 0
    ensures !AnySet([])
  {
    var more := done + [x];
    if AnySet(done) {
      var j :| 0 <= j < |done| && done[j] != 0;
      assert more[j] != 0;
    }
    if x != 0 {
      assert more[|done|] != 0;
    }
  }

  /** The flag loop of tf_encode. */
  method EncodeFlags(enc: RangeEncoder.Encoder, budget: int, logp0: nat, later: nat, tfRes: array<int>, start: nat, end: nat)
    returns (changed: bool)
    requires enc.Valid() && StateOk(Coder(enc))
    requires 1 <= logp0 <= 23 && 1 <= later <= 23
    requires start <= end <= tfRes.Length && Flags(tfRes[start..end]) && tfRes as object != enc.buf
    modifies enc, enc.buf, tfRes
    ensures enc.Valid() && enc.buf == old(enc.buf) && enc.storage == old(enc.storage)
    ensures var p := Scan(old(Coder(enc)), budget, logp0, later, old(tfRes[start..end]), 0);
      && Coder(enc) == RunFrom(old(Coder(enc)), p.items)
      && tfRes[start..end] == p.coded
      && changed == AnySet(p.coded)
    ensures forall i :: 0 <= i < tfRes.Length && !(start <= i < end) ==> tfRes[i] == old(tfRes[i])
  {
    hide Scan, RunFrom, Next, Along, AnySet, Flags, AllCodable, StateTell, RangeEncoder.Encoder.Valid;
    ghost var st0, want := Coder(enc), tfRes[start..end];
    ghost var plan := Scan(st0, budget, logp0, later, want, 0);
    ghost var sent: seq<Item> := [];
    var tell := EncoderTell(enc);
    var logp, curr := logp0, 0;
    changed := false;
    AnyStep([], 0);
    AlongStart(st0, budget, logp0, later, want);
    assert tfRes[start..start] == [] && want[0..] == want;
    for i := start to end
      invariant enc.Valid() && enc.buf == old(enc.buf) && enc.storage == old(enc.storage)
      invariant tell == StateTell(Coder(enc))
      invariant tfRes[i..end] == want[i - start..]
      invariant forall k :: 0 <= k < tfRes.Length && !(start <= k < end) ==> tfRes[k] == old(tfRes[k])
      invariant Along(st0, plan, sent, tfRes[start..i], Coder(enc), budget, logp, later, want[i - start..], curr)
      invariant changed == AnySet(tfRes[start..i])
    {
      ghost var ahead := tfRes[i..end];
      tell, curr, sent := FlagTurn(enc, budget, logp, later, tfRes, start, end, i, curr, st0, plan, sent, want[i - start..], tell);
      assert tfRes[i + 1..end] == ahead[1..];
      assert want[i - start..][1..] == want[i + 1 - start..];
      changed := changed || curr != 0;
      logp := later;
    }
    assert want[end - start..] == [];
    AlongEnd(st0, plan, sent, tfRes[start..end], Coder(enc), budget, logp, later, curr);
  }

  /** One turn of the flag loop. */
  method FlagTurn(enc: RangeEncoder.Encoder, budget: int, logp: nat, later: nat, tfRes: array<int>,
                  ghost start: nat, ghost end: nat, i: nat, curr0: int,
                  ghost st0: State, ghost plan: Plan, ghost sent0: seq<Item>, ghost want: seq<int>, tell0: int)
    returns (tell: int, curr: int, ghost sent: seq<Item>)
    requires enc.Valid() && tfRes as object != enc.buf
    requires start <= i < end <= tfRes.Length && tfRes[i..end] == want && tell0 == StateTell(Coder(enc))
    requires Along(st0, plan, sent0, tfRes[start..i], Coder(enc), budget, logp, later, want, curr0)
    modifies enc, enc.buf, tfRes
    ensures enc.Valid() && enc.buf == old(enc.buf) && enc.storage == old(enc.storage)
    ensures tell == StateTell(Coder(enc)) && curr == tfRes[i]
    ensures forall k :: 0 <= k < tfRes.Length && k != i ==> tfRes[k] == old(tfRes[k])
    ensures Along(st0, plan, sent, tfRes[start..i + 1], Coder(enc), budget, later, later, want[1..], curr)
    ensures AnySet(tfRes[start..i + 1]) <==> AnySet(old(tfRes[start..i])) || curr != 0
  {
    hide Scan, RunFrom, Next, AnySet;
    ghost var done := tfRes[start..i];
    assert tfRes[i] == want[0];
    tell, curr, sent := tell0, curr0, sent0;
    if tell + logp <= budget {
      AlongCoded(st0, plan, sent, done, Coder(enc), budget, logp, later, want, curr);
      EncodeNext(enc, BitLogp(logp), if tfRes[i] != curr then 1 else 0, st0, sent);
      sent := sent + [FlagItem(tfRes[i], curr, logp)];
      tell := EncoderTell(enc);
      curr := tfRes[i];
    } else {
      AlongClamped(st0, plan, sent, done, Coder(enc), budget, logp, later, want, curr);
      tfRes[i] := curr;
    }
    assert tfRes[start..i + 1] == done + [curr];
    AnyStep(done, curr);
  }

  /** tf_encode: codes the flags that fit and leaves the resolutions in tfRes. */
  method TfEncode(enc: RangeEncoder.Encoder, start: nat, end: nat, transient: bool, tfRes: array<int>, lm: nat, select: int)
    requires enc.Valid() && StateOk(Coder(enc)) && lm < 4 && 0 <= select <= 1
    requires start <= end <= tfRes.Length && Flags(tfRes[start..end]) && tfRes as object != enc.buf
    modifies enc, enc.buf, tfRes
    ensures enc.Valid() && enc.buf == old(enc.buf) && enc.storage == old(enc.storage)
    ensures var r := Outcome(old(Coder(enc)), 8 * enc.storage, transient, lm, old(tfRes[start..end]), select);
      && Coder(enc) == RunFrom(old(Coder(enc)), r.items)
      && tfRes[start..end] == Resolutions(lm, transient, r)
    ensures forall i :: 0 <= i < tfRes.Length && !(start <= i < end) ==> tfRes[i] == old(tfRes[i])
  {
    hide Scan, RunFrom, Next, AnySet, StateTell, SelectMatters, RangeEncoder.Encoder.Valid;
    ghost var st0, want := Coder(enc), tfRes[start..end];
    var budget := enc.storage * 8;
    var tell := EncoderTell(enc);
    var logp := if transient then 2 else 4;
    var reserve := lm > 0 && tell + logp + 1 <= budget;
    budget := if reserve then budget - 1 else budget;
    var changed := EncodeFlags(enc, budget, logp, if transient then 4 else 5, tfRes, start, end);
    var chosen := 0;
    ghost var plan := Scan(st0, budget, logp, if transient then 4 else 5, want, 0);
    if reserve && SelectMatters(lm, transient, changed) {
      SelectCodable(select);
      EncodeNext(enc, BitLogp(1), select, st0, plan.items);
      chosen := select;
    }
    ghost var r := Outcome(st0, 8 * enc.storage, transient, lm, want, select);
    MapResolutions(tfRes, start, end, lm, transient, chosen, r);
  }

  lemma SelectCodable(select: int)
    requires 0 <= select <= 1
    ensures Codable(BitLogp(1), select)
  {
  }

  /** The last loop of both functions: flags become resolutions. */
  method MapResolutions(tfRes: array<int>, start: nat, end: nat, lm: nat, transient: bool, select: int, ghost r: TfResult)
    requires start <= end <= tfRes.Length && lm < 4 && select == r.select && 0 <= select <= 1
    requires Flags(r.flags) && tfRes[start..end] == r.flags
    modifies tfRes
    ensures tfRes[start..end] == Resolutions(lm, transient, r)
    ensures forall i :: 0 <= i < tfRes.Length && !(start <= i < end) ==> tfRes[i] == old(tfRes[i])
  {
    hide TfSelect;
    for i := start to end
      invariant forall k :: 0 <= k < tfRes.Length && !(start <= k < end) ==> tfRes[k] == old(tfRes[k])
      invariant forall k :: start <= k < i ==> tfRes[k] == Resolutions(lm, transient, r)[k - start]
      invariant forall k :: i <= k < end ==> tfRes[k] == r.flags[k - start]
    {
      tfRes[i] := TfSelect(lm, Column(transient, select, tfRes[i]));
    }
  }

  /**
    tf_decode.  On a packet that conveys what tf_encode sent from the same
    state, it leaves the very resolutions tf_encode left, clamped flags included.
   */
  method TfDecode(dec: RangeDecoder.Decoder, start: nat, end: nat, transient: bool, tfRes: array<int>, lm: nat,
                  ghost st: State, ghost want: seq<int>, ghost select: int)
    requires At(dec, st) && lm < 4 && 0 <= select <= 1 && Flags(want)
    requires start <= end <= tfRes.Length && |want| == end - start && tfRes as object != dec.buf
    requires Conveys(dec.Stream(), RunFrom(st, Outcome(st, 8 * dec.storage, transient, lm, want, select).items))
    modifies dec, tfRes
    ensures var r := Outcome(st, 8 * dec.storage, transient, lm, want, select);
      && At(dec, RunFrom(st, r.items))
      && tfRes[start..end] == Resolutions(lm, transient, r)
    ensures forall i :: 0 <= i < tfRes.Length && !(start <= i < end) ==> tfRes[i] == old(tfRes[i])
  {
    hide Scan, RunFrom, Next, AnySet, StateTell, SelectMatters, At, Conveys;
    var budget := dec.storage * 8;
    var tell := DecoderTell(dec, st);
    var logp := if transient then 2 else 4;
    var reserve := lm > 0 && tell + logp + 1 <= budget;
    budget := if reserve then budget - 1 else budget;
    ghost var plan := Scan(st, budget, logp, if transient then 4 else 5, want, 0);
    ghost var r := Outcome(st, 8 * dec.storage, transient, lm, want, select);
    ghost var extra := if reserve && SelectMatters(lm, transient, AnySet(plan.coded)) then [SelectItem(select)] else [];
    assert r.items == plan.items + extra;
    var changed, cur := DecodeFlags(dec, budget, logp, if transient then 4 else 5, tfRes, start, end, st, want, extra);
    var chosen := 0;
    if reserve && SelectMatters(lm, transient, changed) {
      SelectCodable(select);
      assert [SelectItem(select)] + [] == extra;
      chosen := DecodeNext(dec, BitLogp(1), cur, SelectItem(select), []);
      RunAppend(st, plan.items, SelectItem(select));
    }
    MapResolutions(tfRes, start, end, lm, transient, chosen, r);
  }

  /** The flag loop of tf_decode; `extra` is whatever was sent after the flags. */
  method DecodeFlags(dec: RangeDecoder.Decoder, budget: int, logp0: nat, later: nat, tfRes: array<int>, start: nat, end: nat,
                     ghost st: State, ghost want: seq<int>, ghost extra: seq<Item>)
    returns (changed: bool, ghost cur: State)
    requires At(dec, st) && 1 <= logp0 <= 23 && 1 <= later <= 23 && Flags(want) && AllCodable(extra)
    requires start <= end <= tfRes.Length && |want| == end - start && tfRes as object != dec.buf
    requires Conveys(dec.Stream(), RunFrom(st, Scan(st, budget, logp0, later, want, 0).items + extra))
    modifies dec, tfRes
    ensures var p := Scan(st, budget, logp0, later, want, 0);
      && tfRes[start..end] == p.coded
      && changed == AnySet(p.coded)
      && StateOk(cur) && cur == RunFrom(st, p.items) && At(dec, cur)
      && Conveys(dec.Stream(), RunFrom(cur, extra))
    ensures forall i :: 0 <= i < tfRes.Length && !(start <= i < end) ==> tfRes[i] == old(tfRes[i])
  {
    hide Scan, RunFrom, Next, Along, AnySet, Flags, AllCodable, StateTell, At, Conveys;
    ghost var plan := Scan(st, budget, logp0, later, want, 0);
    ghost var sent: seq<Item> := [];
    cur := st;
    var tell := DecoderTell(dec, st);
    var logp, curr := logp0, 0;
    changed := false;
    AnyStep([], 0);
    AlongStart(st, budget, logp0, later, want);
    assert tfRes[start..start] == [] && want[0..] == want;
    AheadStart(dec.Stream(), st, budget, logp0, later, want, extra);
    for i := start to end
      invariant At(dec, cur) && tell == StateTell(cur)
      invariant forall k :: 0 <= k < tfRes.Length && !(start <= k < end) ==> tfRes[k] == old(tfRes[k])
      invariant Along(st, plan, sent, tfRes[start..i], cur, budget, logp, later, want[i - start..], curr)
      invariant Ahead(dec.Stream(), cur, budget, logp, later, want[i - start..], curr, extra)
      invariant changed == AnySet(tfRes[start..i])
    {
      ghost var done := tfRes[start..i];
      tell, curr, cur, sent := DecodeFlagTurn(dec, budget, logp, later, curr, st, plan, sent, done, cur, want[i - start..], extra, tell);
      tfRes[i] := curr;
      assert tfRes[start..i + 1] == done + [curr];
      AnyStep(done, curr);
      assert want[i - start..][1..] == want[i + 1 - start..];
      changed := changed || curr != 0;
      logp := later;
    }
    assert want[end - start..] == [];
    AlongEnd(st, plan, sent, tfRes[start..end], cur, budget, logp, later, curr);
    AheadEnd(dec.Stream(), cur, budget, logp, later, curr, extra);
  }

  /** The packet conveys the rest of the plan and then `extra`. */
  ghost predicate Ahead(s: seq<byte>, cur: State, budget: int, logp: nat, later: nat, want: seq<int>, curr: int, extra: seq<Item>)
  {
    && StateOk(cur) && 1 <= logp <= 23 && 1 <= later <= 23 && Flags(want) && 0 <= curr <= 1 && AllCodable(extra)
    && Conveys(s, RunFrom(cur, Scan(cur, budget, logp, later, want, curr).items + extra))
  }

  lemma AheadStart(s: seq<byte>, st: State, budget: int, logp: nat, later: nat, want: seq<int>, extra: seq<Item>)
    requires StateOk(st) && 1 <= logp <= 23 && 1 <= later <= 23 && Flags(want) && AllCodable(extra)
    requires Conveys(s, RunFrom(st, Scan(st, budget, logp, later, want, 0).items + extra))
    ensures Ahead(s, st, budget, logp, later, want, 0, extra)
  {
  }

  lemma AheadEnd(s: seq<byte>, cur: State, budget: int, logp: nat, later: nat, curr: int, extra: seq<Item>)
    requires Ahead(s, cur, budget, logp, later, [], curr, extra)
    ensures StateOk(cur) && AllCodable(extra) && Conveys(s, RunFrom(cur, extra))
  {
    assert [] + extra == extra;
  }

  /** One turn of the flag loop of tf_decode. */
  method DecodeFlagTurn(dec: RangeDecoder.Decoder, budget: int, logp: nat, later: nat, curr0: int,
                        ghost st: State, ghost plan: Plan, ghost sent0: seq<Item>, ghost done: seq<int>,
                        ghost cur0: State, ghost want: seq<int>, ghost extra: seq<Item>, tell0: int)
    returns (tell: int, curr: int, ghost cur: State, ghost sent: seq<Item>)
    requires At(dec, cur0) && want != [] && tell0 == StateTell(cur0)
    requires Along(st, plan, sent0, done, cur0, budget, logp, later, want, curr0)
    requires Ahead(dec.Stream(), cur0, budget, logp, later, want, curr0, extra)
    modifies dec
    ensures At(dec, cur) && tell == StateTell(cur)
    ensures Along(st, plan, sent, done + [curr], cur, budget, later, later, want[1..], curr)
    ensures Ahead(dec.Stream(), cur, budget, later, later, want[1..], curr, extra)
  {
    hide Scan, RunFrom, Next, At, Conveys;
    tell, curr, cur, sent := tell0, curr0, cur0, sent0;
    ScanStep(cur, budget, logp, later, want, curr);
    if tell + logp <= budget {
      AlongCoded(st, plan, sent, done, cur, budget, logp, later, want, curr);
      ghost var item := FlagItem(want[0], curr, logp);
      ghost var rest := Scan(Next(cur, item.model, item.value), budget, later, later, want[1..], want[0]);
      assert [item] + rest.items + extra == [item] + (rest.items + extra);
      var bit := DecodeNext(dec, BitLogp(logp), cur, item, rest.items + extra);
      cur := Next(cur, item.model, item.value);
      sent := sent + [item];
      curr := if bit == 1 then 1 - curr else curr;
      tell := DecoderTell(dec, cur);
    } else {
      AlongClamped(st, plan, sent, done, cur, budget, logp, later, want, curr);
    }
  }
}
