/**
  The computational body of the dashboard's options fetch: from an
  already-fetched option-chain record, the calls and puts of the nearest
  expiry whose strikes lie within a percentage band around the spot price,
  together with that spot price and expiry.
 */
module StreamlitApp {
  import opened OptionChain

  /** The `records` part of the option-chain response: the underlying's spot
      price, the listed expiry dates (nearest first) and the chain rows. */
  datatype Records = Records(underlyingValue: real, expiryDates: seq<string>, data: seq<Entry>)

  /** Reading the nearest expiry of a record that lists none. */
  datatype FetchError = NoExpiryDates

  datatype Result<+T> = Ok(value: T) | Err(error: FetchError)

  /** What the fetch hands to the page: calls, puts, spot price, expiry. */
  datatype OptionsData = OptionsData(calls: seq<Quote>, puts: seq<Quote>, spotPrice: real, expiryDate: string)

  /** The percentage either side of the spot price used when none is given. */
  const DefaultPercentageRange: real := 10.0

  /** The chain rows for the nearest expiry whose strikes lie within
      `percentageRange` percent of the spot price, in chain order. */
  function FilteredOptions(rec: Records, percentageRange: real): (r: seq<Entry>)
    requires rec.expiryDates != []
    ensures forall e :: e in r <==>
              e in rec.data && e.expiryDate == rec.expiryDates[0] &&
              BandAround(rec.underlyingValue, percentageRange).lower <= e.strikePrice <=
                BandAround(rec.underlyingValue, percentageRange).upper
  {
    FilterChain(rec.data, rec.expiryDates[0], BandAround(rec.underlyingValue, percentageRange))
  }

  /** The quotes of one side of the filtered rows. */
  function SideOf(d: OptionsData, side: Side): seq<Quote>
  {
    match side
    case Call => d.calls
    case Put => d.puts
  }

  /** The fetch's computation on the fetched record. A record without expiry
      dates is an error; otherwise the spot price and the nearest expiry are
      passed through and each side holds at most one quote per filtered row.
      The percentage defaults to `DefaultPercentageRange`. */
  function FetchOptionsData(rec: Records, percentageRange: real := DefaultPercentageRange): (r: Result<OptionsData>)
    ensures r.Err? <==> rec.expiryDates == []
    ensures r.Ok? ==> r.value.spotPrice == rec.underlyingValue && r.value.expiryDate == rec.expiryDates[0]
    ensures r.Ok? ==> |r.value.calls| <= |FilteredOptions(rec, percentageRange)| <= |rec.data|
    ensures r.Ok? ==> |r.value.puts| <= |FilteredOptions(rec, percentageRange)|
  {
    if rec.expiryDates == [] then Err(NoExpiryDates)
    else
      var filtered := FilteredOptions(rec, percentageRange);
      Ok(OptionsData(LegsOf(filtered, Call), LegsOf(filtered, Put), rec.underlyingValue, rec.expiryDates[0]))
  }

  /** A quote is among the returned calls (puts) exactly when some row of the
      chain is for the nearest expiry, has its strike inside the band and
      lists that quote as its call (put). */
  lemma FetchedQuotes(rec: Records, percentageRange: real, side: Side, q: Quote)
    requires rec.expiryDates != []
    ensures var band := BandAround(rec.underlyingValue, percentageRange);
            q in SideOf(FetchOptionsData(rec, percentageRange).value, side) <==>
            exists e :: e in rec.data && e.expiryDate == rec.expiryDates[0] &&
              band.lower <= e.strikePrice <= band.upper && Leg(e, side) == Some(q)
  {
  }

  /** The returned calls (puts) are, in order, the call (put) quotes of the
      filtered rows that list one: the k-th quote belongs to the k-th such row. */
  lemma FetchedQuotesInOrder(rec: Records, percentageRange: real, side: Side)
    requires rec.expiryDates != []
    ensures var filtered := FilteredOptions(rec, percentageRange);
            LegsAt(SideOf(FetchOptionsData(rec, percentageRange).value, side), filtered, side,
                   LegPositions(filtered, side))
  {
    LegsAreProjection(FilteredOptions(rec, percentageRange), side);
  }

  /** Running the fetch on a record whose chain is already the filtered one
      gives the same result. */
  lemma FetchIdempotent(rec: Records, percentageRange: real)
    requires rec.expiryDates != []
    ensures FetchOptionsData(rec.(data := FilteredOptions(rec, percentageRange)), percentageRange) ==
            FetchOptionsData(rec, percentageRange)
  {
    FilterIdempotent(rec.data, rec.expiryDates[0], BandAround(rec.underlyingValue, percentageRange));
  }

  /** With a zero percentage only the nearest-expiry rows struck exactly at
      the spot price contribute quotes. */
  lemma ZeroRangeQuotesAtSpot(rec: Records, side: Side, q: Quote)
    requires rec.expiryDates != []
    ensures q in SideOf(FetchOptionsData(rec, 0.0).value, side) <==>
            exists e :: e in rec.data && e.expiryDate == rec.expiryDates[0] &&
              e.strikePrice == rec.underlyingValue && Leg(e, side) == Some(q)
  {
    FetchedQuotes(rec, 0.0, side, q);
  }

  /** The worked example: spot 1000 and the default 10 percent give the band
      [900, 1100]; of strikes 850, 950 and 1150 on the nearest expiry only
      950 is kept, and a row of another expiry is dropped. */
  lemma DefaultBandExample(c850: Quote, c950: Quote, p950: Quote, c1150: Quote, c1000: Quote)
    ensures var rec := Records(1000.0, ["E1", "E2"], [
                Entry(850.0, "E1", Some(c850), None),
                Entry(950.0, "E1", Some(c950), Some(p950)),
                Entry(1150.0, "E1", Some(c1150), None),
                Entry(1000.0, "E2", Some(c1000), None)]);
            BandAround(1000.0, DefaultPercentageRange) == Band(900.0, 1100.0) &&
            FetchOptionsData(rec) == Ok(OptionsData([c950], [p950], 1000.0, "E1"))
  {
    var rec := Records(1000.0, ["E1", "E2"], [
                Entry(850.0, "E1", Some(c850), None),
                Entry(950.0, "E1", Some(c950), Some(p950)),
                Entry(1150.0, "E1", Some(c1150), None),
                Entry(1000.0, "E2", Some(c1000), None)]);
    var band := BandAround(1000.0, DefaultPercentageRange);
    assert band == Band(900.0, 1100.0);
    var d := rec.data;
    assert d[..1][..0] == [];
    assert FilterChain(d[..1], "E1", band) == [];
    assert d[..2][..1] == d[..1];
    assert FilterChain(d[..2], "E1", band) == [d[1]];
    assert d[..3][..2] == d[..2];
    assert FilterChain(d[..3], "E1", band) == [d[1]];
    assert d[..3] == d[..|d| - 1];
    assert FilterChain(d, "E1", band) == [d[1]];
    assert LegsOf([d[1]], Call) == [c950];
    assert LegsOf([d[1]], Put) == [p950];
  }
}
