/**
  Symbols the bands add to the stream: pulse vectors by their index (encode_pulses
  and decode_pulses of celt/cwrs.c) and the split angle by one of three
  probability functions (compute_theta of celt/bands.c).
 */
module SideCoding {
  import opened ByteStreams
  import opened RangeIntervals
  import opened RangeTranscripts
  import opened RangeRoundTrip
  import opened RawBits
  import opened PulseCounts
  import PulseCoder
  import opened ThetaPdf
  import RangeEncoder
  import RangeDecoder

  lemma SeveralVectors(n: nat, k: nat)
    requires n >= 2 && k > 0
    ensures V(n, k) > 1
  {
    UPositive(n, k);
    UPositive(n, k + 1);
  }

  /** encode_pulses; the counts the codec uses fit 32 bits. */
  method EncodePulses(enc: RangeEncoder.Encoder, y: seq<int>, k: nat)
    requires enc.Valid() && StateOk(Coder(enc)) && |y| >= 2 && k == Pulses(y) && k > 0 && V(|y|, k) < 0x1_0000_0000
    modifies enc, enc.buf
    ensures enc.Valid() && enc.buf == old(enc.buf) && enc.storage == old(enc.storage)
    ensures Codable(Uniform(V(|y|, k)), Index(y))
    ensures Coder(enc) == Next(old(Coder(enc)), Uniform(V(|y|, k)), Index(y))
  {
    hide Next, V, Index, Pulses;
    SeveralVectors(|y|, k);
    var i := PulseCoder.Icwrs(y);
    EncodeItem(enc, Uniform(V(|y|, k)), i);
  }

  /** decode_pulses, on a packet that holds the index of `v` there: the vector and its energy. */
  method DecodePulses(dec: RangeDecoder.Decoder, n: nat, k: nat, y: array<int>, ghost st: State, ghost v: seq<int>) returns (yy: nat)
    requires At(dec, st) && n >= 2 && k > 0 && V(n, k) < 0x1_0000_0000
    requires |v| == n && Pulses(v) == k && y.Length >= n && y as object != dec.buf
    requires Reads(dec.Stream(), st, Uniform(V(n, k)), Index(v))
    modifies dec, y
    ensures Codable(Uniform(V(n, k)), Index(v)) && At(dec, Next(st, Uniform(V(n, k)), Index(v)))
    ensures y[..n] == v && yy == SumSquares(v)
    ensures y[n..] == old(y[n..])
  {
    hide Next, V, Index, Pulses, Reads, SumSquares;
    SeveralVectors(n, k);
    ReadsCodable(dec.Stream(), st, Uniform(V(n, k)), Index(v));
    IndexInRange(v);
    VectorOfIndex(v);
    var i := DecodeItem(dec, Uniform(V(n, k)), st, Index(v));
    yy := PulseCoder.Cwrsi(n, k, i, y);
  }

  lemma ReadsCodable(s: seq<byte>, st: State, m: Model, v: int)
    requires Normal(st.iv) && Reads(s, st, m, v)
    ensures Codable(m, v) && ModelOk(m)
  {
  }

  /** The three functions: a step for stereo, uniform for a time split, triangular for the rest. */
  datatype Pdf = StepPdf | UniformPdf | TrianglePdf

  /** Where the weights of angle `x` start; past the last angle, their total. */
  function Start(pdf: Pdf, qn: nat, x: nat): (r: int)
    requires qn % 2 == 0 && qn <= 256 && !pdf.UniformPdf? && x <= qn + 1
  {
    if pdf.StepPdf? then if x <= qn / 2 + 1 then 3 * x else 3 * (qn / 2 + 1) + (x - qn / 2 - 1)
    else if x <= qn then Fl(qn, x) else Total(qn)
  }

  lemma StartsRise(pdf: Pdf, qn: nat, x: nat, y: nat)
    requires qn % 2 == 0 && qn <= 256 && !pdf.UniformPdf? && x <= y <= qn + 1
    ensures 0 == Start(pdf, qn, 0) <= Start(pdf, qn, x) <= Start(pdf, qn, y) <= Start(pdf, qn, qn + 1)
    ensures x < y ==> Start(pdf, qn, x) < Start(pdf, qn, y)
    ensures Start(pdf, qn, qn + 1) <= 16641
  {
    if pdf.TrianglePdf? {
      hide Fl, Total;
      TotalSmall(qn);
      WeightsTile(qn, 0);
      WeightsTile(qn, qn);
      TriangleRises(qn, 0, x);
      TriangleRises(qn, x, y);
      TriangleRises(qn, y, qn + 1);
    }
  }

  lemma TriangleRises(qn: nat, x: nat, y: nat)
    requires qn % 2 == 0 && qn <= 256 && x <= y <= qn + 1
    ensures Start(TrianglePdf, qn, x) <= Start(TrianglePdf, qn, y)
    ensures x < y ==> Start(TrianglePdf, qn, x) < Start(TrianglePdf, qn, y)
  {
    hide Fl, Total;
    if x < y <= qn {
      WeightsOrdered(qn, x, y);
    } else if x < y {
      WeightsTile(qn, qn);
      if x < qn {
        WeightsOrdered(qn, x, qn);
      }
    }
  }

  function Starts(pdf: Pdf, qn: nat): (cum: seq<nat>)
    requires qn % 2 == 0 && qn <= 256 && !pdf.UniformPdf?
    ensures |cum| == qn + 2 && forall x :: 0 <= x <= qn + 1 ==> cum[x] == Start(pdf, qn, x)
  {
    hide Start;
    StartsNotNegative(pdf, qn);
    seq(qn + 2, x requires 0 <= x <= qn + 1 => Start(pdf, qn, x))
  }

  lemma StartsNotNegative(pdf: Pdf, qn: nat)
    requires qn % 2 == 0 && qn <= 256 && !pdf.UniformPdf?
    ensures forall x :: 0 <= x <= qn + 1 ==> Start(pdf, qn, x) >= 0
  {
    hide Start;
    forall x | 0 <= x <= qn + 1 ensures Start(pdf, qn, x) >= 0 {
      StartsRise(pdf, qn, x, x);
    }
  }

  function AngleModel(pdf: Pdf, qn: nat): (m: Model)
    requires 0 < qn <= 256 && qn % 2 == 0
    ensures ModelOk(m) && forall x: nat :: x <= qn ==> Codable(m, x)
  {
    if pdf.UniformPdf? then Uniform(qn + 1)
    else
      StartsOk(pdf, qn);
      Frequencies(Starts(pdf, qn))
  }

  lemma StartsOk(pdf: Pdf, qn: nat)
    requires 0 < qn <= 256 && qn % 2 == 0 && !pdf.UniformPdf?
    ensures CumOk(Starts(pdf, qn)) && 0 < Start(pdf, qn, qn + 1) <= CODE_BOT
    ensures forall x :: 0 <= x <= qn ==> Starts(pdf, qn)[x] < Starts(pdf, qn)[x + 1]
  {
    hide Start;
    var cum := Starts(pdf, qn);
    StartsRise(pdf, qn, 0, qn + 1);
    forall x, y | 0 <= x <= y < |cum| ensures cum[x] <= cum[y] {
      StartsRise(pdf, qn, x, y);
    }
    forall x | 0 <= x <= qn ensures cum[x] < cum[x + 1] {
      StartsRise(pdf, qn, x, x + 1);
    }
  }

  /** The encoder's interval for an angle, by the source's expressions. */
  lemma IntervalIs(pdf: Pdf, qn: nat, x: nat)
    requires 0 < qn <= 256 && qn % 2 == 0 && x <= qn && !pdf.UniformPdf?
    ensures pdf.StepPdf? ==>
      && Start(pdf, qn, x) == (if x <= qn / 2 then 3 * x else x - 1 - qn / 2 + (qn / 2 + 1) * 3)
      && Start(pdf, qn, x + 1) == (if x <= qn / 2 then 3 * (x + 1) else x - qn / 2 + (qn / 2 + 1) * 3)
      && Start(pdf, qn, qn + 1) == 3 * (qn / 2 + 1) + qn / 2
    ensures pdf.TrianglePdf? ==>
      Start(pdf, qn, x) == Fl(qn, x) && Start(pdf, qn, x + 1) == Fl(qn, x) + Fs(qn, x) && Start(pdf, qn, qn + 1) == Total(qn)
  {
    hide Fl, Total;
    WeightsTile(qn, x);
  }

  /** The entropy coding of compute_theta on the encoder's side. */
  method EncodeAngle(enc: RangeEncoder.Encoder, pdf: Pdf, qn: nat, itheta: nat)
    requires enc.Valid() && StateOk(Coder(enc)) && 0 < qn <= 256 && qn % 2 == 0 && itheta <= qn
    modifies enc, enc.buf
    ensures enc.Valid() && enc.buf == old(enc.buf) && enc.storage == old(enc.storage)
    ensures Coder(enc) == Next(old(Coder(enc)), AngleModel(pdf, qn), itheta)
  {
    if pdf.UniformPdf? {
      hide Next;
      EncodeItem(enc, Uniform(qn + 1), itheta);
    } else {
      hide Start, Fl, Fs, Total, Next, CumOk, Starts;
      ghost var m := AngleModel(pdf, qn);
      IntervalIs(pdf, qn, itheta);
      StartsRise(pdf, qn, itheta, itheta + 1);
      AngleTable(pdf, qn, itheta);
      if pdf.StepPdf? {
        var p0, x, x0 := 3, itheta, qn / 2;
        var ft := p0 * (x0 + 1) + x0;
        EncodeSymbol(enc, m, itheta, if x <= x0 then p0 * x else (x - 1 - x0) + (x0 + 1) * p0,
                     if x <= x0 then p0 * (x + 1) else (x - x0) + (x0 + 1) * p0, ft);
      } else {
        EncodeSymbol(enc, m, itheta, Fl(qn, itheta), Fl(qn, itheta) + Fs(qn, itheta), Total(qn));
      }
    }
  }

  lemma AngleTable(pdf: Pdf, qn: nat, x: nat)
    requires 0 < qn <= 256 && qn % 2 == 0 && x <= qn && !pdf.UniformPdf?
    ensures var m := AngleModel(pdf, qn);
      && m.Frequencies? && m.cum == Starts(pdf, qn) && |m.cum| == qn + 2
      && m.cum[x] == Start(pdf, qn, x) && m.cum[x + 1] == Start(pdf, qn, x + 1) && m.cum[qn + 1] == Start(pdf, qn, qn + 1)
      && Codable(m, x)
  {
    hide Start, CumOk;
  }

  /** What the decoder makes of a frequency: the angle, and its interval. */
  method AngleOf(pdf: Pdf, qn: nat, fm: nat) returns (x: nat, fl: nat, fh: nat)
    requires 0 < qn <= 256 && qn % 2 == 0 && !pdf.UniformPdf? && fm < Start(pdf, qn, qn + 1)
    ensures x <= qn && fl == Start(pdf, qn, x) && fh == Start(pdf, qn, x + 1) && fl <= fm < fh
  {
    if pdf.StepPdf? {
      var x0 := qn / 2;
      if fm < (x0 + 1) * 3 {
        x := fm / 3;
      } else {
        x := x0 + 1 + (fm - (x0 + 1) * 3);
      }
      fl := if x <= x0 then 3 * x else x - 1 - x0 + (x0 + 1) * 3;
      fh := if x <= x0 then 3 * (x + 1) else x - x0 + (x0 + 1) * 3;
    } else {
      hide Fl, Fs, Total;
      IntervalIs(pdf, qn, 0);
      var fs;
      x, fl, fs := DecodeAngle(qn, fm);
      IntervalIs(pdf, qn, x);
      fh := fl + fs;
    }
  }

  /** The entropy coding of compute_theta on the decoder's side: the angle the packet holds there. */
  method DecodeTheta(dec: RangeDecoder.Decoder, pdf: Pdf, qn: nat, ghost st: State, ghost x0: nat) returns (itheta: nat)
    requires At(dec, st) && 0 < qn <= 256 && qn % 2 == 0 && x0 <= qn
    requires Reads(dec.Stream(), st, AngleModel(pdf, qn), x0)
    modifies dec
    ensures itheta == x0 && At(dec, Next(st, AngleModel(pdf, qn), x0))
  {
    if pdf.UniformPdf? {
      hide Next, Reads;
      itheta := DecodeItem(dec, Uniform(qn + 1), st, x0);
    } else {
      hide Step, Start, Starts, FieldAt, FrequencyAt, Tail, Prefix, Fetched, CumOk, Next, Reads;
      ghost var m := AngleModel(pdf, qn);
      StartsOk(pdf, qn);
      ReadsHolds(dec, st, m, x0);
      var ft := FtOf(pdf, qn);
      var fm := dec.Decode(ft);
      var fl, fh;
      itheta, fl, fh := AngleOf(pdf, qn, fm);
      AngleTable(pdf, qn, itheta);
      StartsRise(pdf, qn, itheta + 1, qn + 1);
      UpdateSymbol(dec, m, m.cum, itheta, fl, fh, ft, fm, st, x0);
    }
  }

  lemma ReadsHolds(dec: RangeDecoder.Decoder, st: State, m: Model, v: int)
    requires At(dec, st) && Reads(dec.Stream(), st, m, v) && m.Frequencies?
    ensures dec.Valid() && dec.Iv() == st.iv && dec.consumed == st.raw.bits && StateOk(st)
    ensures Holds(st.iv, dec.Stream())
  {
    hide Step, FieldAt, FrequencyAt, Tail, Prefix, Fetched, CumOk;
  }

  method FtOf(pdf: Pdf, qn: nat) returns (ft: nat)
    requires 0 < qn <= 256 && qn % 2 == 0 && !pdf.UniformPdf?
    ensures ft == Start(pdf, qn, qn + 1)
  {
    hide Fl, Total;
    IntervalIs(pdf, qn, qn);
    if pdf.StepPdf? {
      ft := 3 * (qn / 2 + 1) + qn / 2;
    } else {
      ft := Total(qn);
    }
  }
}
