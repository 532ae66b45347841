/**
 FEMA and GST records of a released escrow. Rupee amounts are whole paise; Decimal.quantize
 uses the default context, which rounds halves to the even neighbour.
 */
module TaxRecords {
  import opened Wrappers

  // ----- Rounding ------------------------------------------------------------------------------

  /** Nearest integer, halves to even. */
  function HalfEven(y: real): int {
    var f := y.Floor;
    var d := y - f as real;
    if d < 0.5 || (d == 0.5 && f % 2 == 0) then f else f + 1
  }

  /** quantize(Decimal("0.01")), in paise. */
  function Paise(rupees: real): int {
    HalfEven(rupees * 100.0)
  }

  function Rupees(paise: int): real {
    paise as real / 100.0
  }

  /** Within half a unit; and on a tie, even. This determines the result. */
  lemma HalfEvenExact(y: real, r: int)
    ensures r == HalfEven(y) <==>
            && -0.5 <= r as real - y <= 0.5
            && (r as real - y == 0.5 || r as real - y == -0.5 ==> r % 2 == 0)
  {
    var f := y.Floor;
    if -0.5 <= r as real - y <= 0.5 {
      assert r == f || r == f + 1;
    }
  }

  lemma PaiseOfRupees(p: int)
    ensures Paise(Rupees(p)) == p
  {
    assert Rupees(p) * 100.0 == p as real;
    HalfEvenExact(p as real, p);
  }

  // ----- Records -------------------------------------------------------------------------------

  datatype FormType = Form15CA | Form15CB

  datatype FemaRecord = FemaRecord(formType: FormType, amountInr: nat, amountAlgo: real, fxRate: real, merkleRoot: string)

  datatype TaxType = Igst | CgstSgst

  datatype GstRecord = GstRecord(taxType: TaxType, taxable: nat, igst: nat, cgst: nat, sgst: nat)

  datatype Error = ValidationError | StorageError

  function AmountAlgo(microAlgo: int): real {
    microAlgo as real / 1000000.0
  }

  function AmountInr(microAlgo: int, fxRate: real): real {
    AmountAlgo(microAlgo) * fxRate
  }

  function GenerateFema(microAlgo: int, fxRate: real, merkleRoot: string): Result<FemaRecord, Error> {
    var amountInr := AmountInr(microAlgo, fxRate);
    var form := if amountInr >= 500000.0 then Form15CB else Form15CA;
    if Paise(amountInr) < 0 then Err(ValidationError)
    else Ok(FemaRecord(form, Paise(amountInr), AmountAlgo(microAlgo), fxRate, merkleRoot))
  }

  function GenerateGst(buyerState: string, sellerState: string, taxableInr: real): Result<GstRecord, Error> {
    var taxable := Paise(taxableInr);
    if buyerState != sellerState then
      var igst := Paise(taxableInr * 18.0 / 100.0);
      if taxable < 0 || igst < 0 then Err(ValidationError) else Ok(GstRecord(Igst, taxable, igst, 0, 0))
    else
      var half := Paise(taxableInr * 9.0 / 100.0);
      if taxable < 0 || half < 0 then Err(ValidationError) else Ok(GstRecord(CgstSgst, taxable, 0, half, half))
  }

  function TotalTax(g: GstRecord): nat {
    g.igst + g.cgst + g.sgst
  }

  // ----- ComplianceService.generate_compliance_records -------------------------------------------

  /** `formatsOk` stands for the PAN, GSTIN and HSN formats of the resolved enterprises. */
  datatype Command = Command(
    microAlgo: int, merkleRoot: string, fxRate: Option<real>,
    buyerState: string, sellerState: string, formatsOk: bool)

  /** `fx_rate or stub`: a missing rate and a zero rate both become 15. */
  function Rate(cmd: Command): real {
    if cmd.fxRate.None? || cmd.fxRate.value == 0.0 then 15.0 else cmd.fxRate.value
  }

  function TaxableInr(cmd: Command): real {
    Rupees(Paise(AmountInr(cmd.microAlgo, Rate(cmd))))
  }

  datatype Records = Records(fema: FemaRecord, gst: GstRecord)

  function NewRecords(cmd: Command): Result<Records, Error> {
    if !cmd.formatsOk then Err(ValidationError)
    else match GenerateFema(cmd.microAlgo, Rate(cmd), cmd.merkleRoot)
         case Err(e) => Err(e)
         case Ok(fema) =>
           match GenerateGst(cmd.buyerState, cmd.sellerState, TaxableInr(cmd))
           case Err(e) => Err(e)
           case Ok(gst) => Ok(Records(fema, gst))
  }

  class ComplianceStore {
    var fema: Option<FemaRecord>
    var gst: Option<GstRecord>

    ghost predicate Valid()
      reads this
    {
      && (fema.Some? <==> gst.Some?)
      && (fema.Some? ==> fema.value.amountInr == gst.value.taxable)
    }

    constructor ()
      ensures Valid() && fema == None && gst == None
    {
      fema, gst := None, None;
    }

    /**
     Both records are written in one transaction, so they exist together and agree on the rupee
     amount; once they exist no later command, whatever its rate, changes or re-issues them.
     */
    method Generate(cmd: Command, commitFails: bool) returns (r: Result<Records, Error>)
      requires Valid()
      modifies this
      ensures Valid()
      ensures old(fema).Some? ==> fema == old(fema) && gst == old(gst) && r == Ok(Records(fema.value, gst.value))
      ensures old(fema).None? ==> r == (if NewRecords(cmd).Ok? && commitFails then Err(StorageError) else NewRecords(cmd))
      ensures old(fema).None? && r.Ok? ==> fema == Some(r.value.fema) && gst == Some(r.value.gst)
      ensures r.Err? ==> fema == old(fema) && gst == old(gst)
    {
      if fema.Some? && gst.Some? {
        return Ok(Records(fema.value, gst.value));
      }
      var records := NewRecords(cmd);
      if records.Err? { return records; }
      if commitFails { return Err(StorageError); }
      SameRupees(cmd);
      if fema.None? { fema := Some(records.value.fema); }
      if gst.None? { gst := Some(records.value.gst); }
      return records;
    }
  }

  // ----- What the records promise ----------------------------------------------------------------

  /** The FEMA rupee amount is the GST taxable amount, for every amount and rate. */
  lemma SameRupees(cmd: Command)
    requires NewRecords(cmd).Ok?
    ensures NewRecords(cmd).value.fema.amountInr == NewRecords(cmd).value.gst.taxable
  {
    var exact := AmountInr(cmd.microAlgo, Rate(cmd));
    PaiseOfRupees(Paise(exact));
    assert GenerateGst(cmd.buyerState, cmd.sellerState, TaxableInr(cmd)).value.taxable == Paise(TaxableInr(cmd));
  }

  /** Records are produced for every non-negative amount, whatever the parties. */
  lemma RecordsForEveryAmount(cmd: Command)
    requires cmd.formatsOk && cmd.microAlgo >= 0 && Rate(cmd) > 0.0
    ensures NewRecords(cmd).Ok?
  {
    var x := AmountInr(cmd.microAlgo, Rate(cmd));
    assert x >= 0.0;
    var t := TaxableInr(cmd);
    assert Paise(x) >= 0 && t >= 0.0;
    assert Paise(t * 18.0 / 100.0) >= 0 && Paise(t * 9.0 / 100.0) >= 0 && Paise(t) >= 0;
  }

  /** Twice the rounded half against the rounded whole. */
  lemma DoubleHalfEven(y: real)
    ensures -1 <= 2 * HalfEven(y) - HalfEven(2.0 * y) <= 1
    ensures 2 * HalfEven(y) != HalfEven(2.0 * y) <==> 0.25 < y - y.Floor as real < 0.75
  {
    var f := y.Floor;
    var d := y - f as real;
    var whole :=
      if d <= 0.25 then 2 * f
      else if d < 0.75 then 2 * f + 1
      else 2 * f + 2;
    assert -0.5 <= whole as real - 2.0 * y <= 0.5;
    assert (2 * f) % 2 == 0 && (2 * f + 2) % 2 == 0;
    HalfEvenExact(2.0 * y, whole);
    assert 2 * HalfEven(y) == 2 * f || 2 * HalfEven(y) == 2 * f + 2;
  }

  lemma GstOnPaise(state1: string, state2: string, taxable: nat)
    ensures var r := GenerateGst(state1, state2, Rupees(taxable));
            && r.Ok? && r.value.taxable == taxable
            && TotalTax(r.value) == if state1 == state2 then 2 * HalfEven(0.09 * taxable as real) else HalfEven(0.18 * taxable as real)
  {
    PaiseOfRupees(taxable);
    assert Rupees(taxable) * 18.0 / 100.0 * 100.0 == 0.18 * taxable as real;
    assert Rupees(taxable) * 9.0 / 100.0 * 100.0 == 0.09 * taxable as real;
  }

  /**
   On the same taxable amount the intrastate and interstate totals are each within one paisa of
   exact 18%, and within one paisa of each other; they differ exactly when the last two digits
   of nine times the amount in paise lie strictly between 25 and 75.
   */
  lemma IntraVersusInter(state: string, other: string, taxable: nat, intra: GstRecord, inter: GstRecord)
    requires state != other
    requires GenerateGst(state, state, Rupees(taxable)) == Ok(intra)
    requires GenerateGst(state, other, Rupees(taxable)) == Ok(inter)
    ensures -1.0 <= TotalTax(intra) as real - 0.18 * taxable as real <= 1.0
    ensures -0.5 <= TotalTax(inter) as real - 0.18 * taxable as real <= 0.5
    ensures -1 <= TotalTax(intra) - TotalTax(inter) <= 1
    ensures TotalTax(intra) != TotalTax(inter) <==> 25 < (9 * taxable) % 100 < 75
  {
    GstOnPaise(state, state, taxable);
    GstOnPaise(state, other, taxable);
    var y := 0.09 * taxable as real;
    assert 2.0 * y == 0.18 * taxable as real;
    DoubleHalfEven(y);
    HalfEvenExact(y, HalfEven(y));
    HalfEvenExact(2.0 * y, HalfEven(2.0 * y));
    FractionOfNine(taxable);
  }

  lemma FractionOfNine(p: nat)
    ensures var y := 0.09 * p as real;
            0.25 < y - y.Floor as real < 0.75 <==> 25 < (9 * p) % 100 < 75
  {
    var q, r := (9 * p) / 100, (9 * p) % 100;
    var y := 0.09 * p as real;
    assert 9 * p == 100 * q + r;
    assert y * 100.0 == (9 * p) as real;
    assert y == q as real + r as real / 100.0;
    assert y.Floor == q;
  }

  /** The form is chosen on the unrounded amount: exactly when it disagrees with the recorded one. */
  lemma FormAgainstRecordedAmount(microAlgo: int, fxRate: real, root: string)
    requires GenerateFema(microAlgo, fxRate, root).Ok?
    ensures var r := GenerateFema(microAlgo, fxRate, root).value;
            var exact := AmountInr(microAlgo, fxRate);
            (r.formType.Form15CB? <==> r.amountInr >= 50000000) <==> !(499999.995 <= exact < 500000.0)
  {
    var exact := AmountInr(microAlgo, fxRate);
    HalfEvenExact(exact * 100.0, Paise(exact));
    if 499999.995 <= exact < 500000.0 {
      HalfEvenExact(exact * 100.0, 50000000);
    }
  }

  /** 33333.333333 ALGO at the fallback rate: recorded as 500000.00 rupees, on the form for less. */
  lemma FormCanDisagree(root: string)
    ensures GenerateFema(33_333_333_333, 15.0, root).Ok?
    ensures var r := GenerateFema(33_333_333_333, 15.0, root).value;
            r.formType.Form15CA? && r.amountInr == 50000000
  {
    HalfEvenExact(49999999.9995, 50000000);
  }

  // ----- Every field of the records ----------------------------------------------------------------

  /** r is the whole number nearest to y, the even one of two. */
  ghost predicate NearestEven(r: int, y: real) {
    -0.5 <= r as real - y <= 0.5 && (r as real - y == 0.5 || r as real - y == -0.5 ==> r % 2 == 0)
  }

  /** A missing rate and a rate of zero read as 15 rupees. */
  ghost predicate RateOf(cmd: Command, rate: real) {
    match cmd.fxRate
    case None => rate == 15.0
    case Some(given) => rate == if given == 0.0 then 15.0 else given
  }

  lemma RateUsed(cmd: Command, rate: real)
    requires NewRecords(cmd).Ok? && RateOf(cmd, rate)
    ensures GenerateFema(cmd.microAlgo, rate, cmd.merkleRoot) == Ok(NewRecords(cmd).value.fema)
  {
  }

  /** A millionth of a unit each, at the given rate; the form is chosen on the unrounded amount. */
  lemma FemaExact(microAlgo: int, rate: real, root: string, rupees: real)
    requires GenerateFema(microAlgo, rate, root).Ok? && rupees * 1000000.0 == microAlgo as real * rate
    ensures var f := GenerateFema(microAlgo, rate, root).value;
            && f.fxRate == rate && f.merkleRoot == root && f.amountAlgo * 1000000.0 == microAlgo as real
            && NearestEven(f.amountInr, 100.0 * rupees)
            && (f.formType == Form15CB <==> rupees >= 500000.0)
  {
    SameAmount(microAlgo, rate, rupees);
    HalfEvenExact(rupees * 100.0, Paise(rupees));
  }

  lemma SameAmount(microAlgo: int, rate: real, rupees: real)
    requires rupees * 1000000.0 == microAlgo as real * rate
    ensures rupees == AmountInr(microAlgo, rate)
  {
    assert AmountInr(microAlgo, rate) * 1000000.0 == microAlgo as real * rate;
  }

  /** Between states 18% in one tax, within a state 9% twice, each to the nearest paisa. */
  lemma GstExact(cmd: Command)
    requires NewRecords(cmd).Ok?
    ensures var g := NewRecords(cmd).value.gst;
            && g.taxable == NewRecords(cmd).value.fema.amountInr
            && if cmd.buyerState == cmd.sellerState
               then g.taxType == CgstSgst && g.igst == 0 && g.cgst == g.sgst && NearestEven(g.cgst, 0.09 * g.taxable as real)
               else g.taxType == Igst && NearestEven(g.igst, 0.18 * g.taxable as real) && g.cgst == 0 && g.sgst == 0
  {
    SameRupees(cmd);
    var taxable := Paise(AmountInr(cmd.microAlgo, Rate(cmd)));
    PaiseOfRupees(taxable);
    assert Rupees(taxable) * 18.0 / 100.0 * 100.0 == 0.18 * taxable as real;
    assert Rupees(taxable) * 9.0 / 100.0 * 100.0 == 0.09 * taxable as real;
    HalfEvenExact(0.18 * taxable as real, HalfEven(0.18 * taxable as real));
    HalfEvenExact(0.09 * taxable as real, HalfEven(0.09 * taxable as real));
  }
}
