# Options chain viewer: the strike-band filter

This project models the one computation in the options dashboard: the body of
`fetch_options_data` that runs once an option chain has been fetched for a stock.
It takes the chain's `records` part, which holds the underlying's spot price, the
listed expiry dates (nearest first) and the chain rows. Each row has a strike, an
expiry and an optional call (`CE`) and put (`PE`) quote. The body does four things:

1. It computes the inclusive band `spot * (1 - pct/100) .. spot * (1 + pct/100)`.
   `pct` defaults to 10.
2. It takes the nearest expiry, which is the first listed expiry date.
3. It keeps, in chain order, the rows for that expiry whose strike lies in the band.
4. It returns the call quotes and the put quotes of the kept rows, skipping rows
   that lack that side, together with the spot price and the expiry.

Two modules:

- `OptionChain` (`option_chain.dfy`) holds the row, quote and band values, and
  the band arithmetic (`BandAround`). It also holds the row filter (`FilterChain`)
  and the per-side split (`LegsOf`), plus their lemmas. The lemmas cover soundness,
  completeness, order, multiplicity, concatenation, idempotence and the
  zero-percent band. Each sequence function has a position-based
  characterisation: `KeptPositions` and `LegPositions`.
- `StreamlitApp` (`streamlit_app.dfy`) holds the fetched record, the result of
  the fetch (`FetchOptionsData`) and the lemmas about that result as a whole.

Prices and the percentage are `real`, which stands in for Python floats.
`pct / 100` is true division, as in Python 3. On a record without expiry dates,
`expiryDates[0]` (streamlit_app.py:25) raises `IndexError`, which nothing
catches. The model returns `Err(NoExpiryDates)` instead.

The code checks neither the sign of the spot price nor that of the percentage,
so the model accepts any values. `BandAround` states exactly when the band
contains the spot price: when `spot * pct >= 0`.

## Model

| member | source | states |
|---|---|---|
| `OptionChain.BandAround` | streamlit_app.py:21-22 | The band holds the spot price for spot ≥ 0 and pct ≥ 0, and for any inputs it holds the spot price (and lower ≤ upper) exactly when spot·pct ≥ 0. It is centred on the spot price, and pct = 0 collapses it to the spot price. |
| `OptionChain.FilterChain` | streamlit_app.py:27-31 | No longer than the chain. A row is in the result exactly when it is in the chain, its expiry is the chosen one and lower ≤ strike ≤ upper (soundness and completeness). |
| `OptionChain.LegsOf` | streamlit_app.py:34-35 | No more quotes than rows. A quote is in the result exactly when some row lists it on that side (`CE` for calls, `PE` for puts). |
| `OptionChain.KeptPositions` | streamlit_app.py:27-31 | The strictly increasing positions below the chain length that are exactly the positions of the rows meeting the expiry and band condition. |
| `OptionChain.LegPositions` | streamlit_app.py:34-35 | The strictly increasing positions that are exactly the positions of the rows listing the given side. |
| `OptionChain.FilterIsKeptSubsequence` | streamlit_app.py:27-31 | The filter's k-th row is the chain's row at the k-th kept position. So the result is the order-preserving subsequence made of exactly the kept rows. |
| `OptionChain.LegsAreProjection` | streamlit_app.py:34-35 | The k-th quote of a side is that side of the k-th row that lists it. Rows without that side contribute nothing. |
| `OptionChain.FilterCount` | streamlit_app.py:27-31 | A kept row occurs in the result as often as in the chain, and any other row does not occur. Nothing is duplicated or dropped. |
| `OptionChain.FilterAppend` | streamlit_app.py:27-31 | Filtering a concatenation is concatenating the filtered parts. |
| `OptionChain.FilterKeepsAllKept` | streamlit_app.py:27-31 | A chain whose rows all meet the condition passes the filter unchanged. |
| `OptionChain.FilterIdempotent` | streamlit_app.py:27-31 | Applying the same expiry and band filter to the filtered rows returns them unchanged. |
| `OptionChain.LegsCount` | streamlit_app.py:34-35 | The number of call (put) quotes equals the number of rows that list a call (put). |
| `OptionChain.ZeroRangeKeepsOnlySpotStrike` | streamlit_app.py:21-30 | With pct = 0, a row survives exactly when it is for the chosen expiry and its strike equals the spot price. |
| `StreamlitApp.FilteredOptions` | streamlit_app.py:25-31 | The kept rows are exactly the chain rows for the first listed expiry whose strike lies within the band around the spot price. |
| `StreamlitApp.FetchOptionsData` | streamlit_app.py:12-37 | The percentage parameter defaults to 10 (`DefaultPercentageRange`), as the one caller at streamlit_app.py:52 relies on. The result is an error exactly when no expiry date is listed. Otherwise it passes through the spot price and the first expiry unchanged, and has no more calls or puts than kept rows (and no more kept rows than chain rows). |
| `StreamlitApp.FetchedQuotes` | streamlit_app.py:25-35 | A quote is among the returned calls (puts) exactly when some chain row is for the nearest expiry, has its strike in the band and lists that quote as its `CE` (`PE`). |
| `StreamlitApp.FetchedQuotesInOrder` | streamlit_app.py:34-35 | The returned calls (puts) are, in order, the `CE` (`PE`) quotes of the kept rows that list one. |
| `StreamlitApp.FetchIdempotent` | streamlit_app.py:25-37 | Fetching from a record whose chain is already the filtered chain gives the same result. |
| `StreamlitApp.ZeroRangeQuotesAtSpot` | streamlit_app.py:12-35 | With pct = 0, a quote is returned exactly when it belongs to a nearest-expiry row struck at the spot price. |
| `StreamlitApp.DefaultBandExample` | streamlit_app.py:12-37 | Worked example. Spot 1000 with the percentage left at its default, 10% (`DefaultPercentageRange`), gives the band [900, 1100]. Of strikes 850, 950 and 1150 on the nearest expiry, plus a row of another expiry, only the 950 row's call and put are returned. |

## Left out

- `load_symbols` (streamlit_app.py:6-9) reads a JSON file. It is pure I/O.
- The call to `nse_optionchain_scrapper` (streamlit_app.py:14) is a network scrape
  inside a library that is not part of this model. Its result is an input value (`Records`).
- `st.write`, `st.title`, `st.subheader`, `st.sidebar.*`, `st.table` and `main`
  (streamlit_app.py:18, 39-63) only render the page and produce no data.
- The model does not capture IEEE-754 rounding of `spot * (1 ± pct/100)`. Real
  arithmetic is exact, so a strike sitting exactly on a rounded bound may be kept
  by one and not by the other. `real` also has no NaN or infinity. With a NaN
  spot price, every comparison at streamlit_app.py:30 is false, so Python keeps
  no row; the model has no such value.
- The model does not capture the dictionary shape of the scraper's response. In
  the code, a `KeyError` is raised by a missing `records`, `underlyingValue`,
  `expiryDates` or `data` key, or by a row without `expiryDate`. A missing
  `strikePrice` raises it only in a row of the nearest expiry, because the `and`
  at streamlit_app.py:29-30 short-circuits for every other row. The typed record
  cannot express a missing key, so only the empty expiry list is modelled as an
  error.
- `'CE' in entry` tests whether the key is present. A key that is present but
  holds `null` would be returned as a `None` quote. The model treats presence as
  `Some(quote)` and absence as `None`.
- The model keeps only three quote fields: last price, open interest and change
  in open interest. The filter never reads the quote, so the other fields make no difference.
