# CoinJoin recognizer: the rule-based classifier

This project models the classifier in `Coinjoin.py` of the CoinJoin recognizer.
The classifier takes one decoded transaction (a JSON object with `vin` and
`vout` lists) and says whether it looks like a CoinJoin. It does this with six
rules, which `is_coinjoin_like` runs in a fixed order, stopping at the first one
that fails.

Rules are numbered as in the source's docstrings; `is_coinjoin_like` runs them
in the order 1, 2, 5, 4, 6, 3:

1. `has_minimum_inputs`: at least 3 inputs.
2. `has_sufficient_outputs`: with `bits = int(log2(|vout|))`, if `bits < 6`
   (fewer than 64 outputs) there must be at least as many outputs as inputs;
   otherwise at least half as many.
3. `has_repeated_output_value`: at least 3 outputs, and some value carried by
   at least `max(min(bits + 1, 5), 3)` outputs.
4. `has_same_value_different_addresses`: scanning outputs and their addresses
   in order, with one remembered address per value, no address may equal the
   one remembered for its value.
5. `has_reasonable_output_count`: fewer outputs than twice the inputs.
6. `has_op_return_output`: no output of value 0 with script type `"nulldata"`.
   Despite its name, the rule passes when there is no such output.

Files:

- `transaction.dfy` (module `Transaction`): the transaction record. Each key the
  classifier reads may be absent, and the accessors `Vin`, `Vout`, `Addresses`
  and `ScriptType` give the defaults the source uses with `.get`. Output
  values are `real`s, because they are JSON numbers and Python compares `1`
  and `1.0` as equal. The model only compares them for equality and with zero.
- `log2.dfy` (module `Log2`): `FloorLog2`, an exact integer stand-in for
  `int(math.log2(n))`, with its bracketing by powers of two.
- `coinjoin.dfy` (module `Coinjoin`): the six rules and the classifier. The
  length rules are functions. The scans are methods with loops: the Counter
  tally, the `any` over the tallies, the nested address scan with its
  value-to-last-address map, and the OP_RETURN scan. Each method is proved
  against a specification (`RepeatedValueRule`, `SameValueRule`,
  `NoOpReturnRule`). `IsCoinjoinLike` is the early-return chain. It is proved
  equal to the conjunction `AllRules` whenever `vout` is non-empty.

`math.log2(0)` raises `ValueError`. So when a transaction has at least 3
inputs and no outputs, `is_coinjoin_like` raises instead of answering. The
model makes this an explicit outcome: `HasSufficientOutputs` and
`IsCoinjoinLike` return `Result<bool>`, and this case gives
`Err(MathDomainError)`. With fewer than 3 inputs the classifier answers `false`
before any logarithm is taken.

The classifier never changes the transaction. In the model the transaction is
an immutable value.

Where the code and its own docstrings or log messages say different things,
the model follows the code:

- Rule 2's docstring (Coinjoin.py:21) asks for at least half as many outputs
  as inputs. The code asks for that only from 64 outputs on (`bits < 6`);
  below 64 it asks for at least as many outputs as inputs.
- Rule 5's log message (Coinjoin.py:126) speaks of an output count that
  "exceeds" twice the input count, but the test at Coinjoin.py:124 also
  rejects `|vout| == 2 * |vin|`.
- Rule 4's docstring (Coinjoin.py:105) says outputs of the same value must have
  different addresses. The code remembers only the last address per value, so
  one value with addresses a, b, a passes (`OnlyLastAddressCompared`), and the
  verdict depends on the order of the outputs. Rule 3 does not depend on order
  (`RepeatedValueRuleIgnoresOrder`).
- Rule 6's log messages (Coinjoin.py:136, 138) describe its two outcomes the
  wrong way round; the returned booleans are what the model follows.

The classifier has no rule about input addresses: a transaction whose inputs
all share one address can still be classified as CoinJoin-like.

## Model

| member | source | states |
|---|---|---|
| `Log2.FloorLog2` | Coinjoin.py:22 | `int(math.log2(n))` for `n >= 1`: the result `r` satisfies `2^r <= n < 2^(r+1)` |
| `Log2.FloorLog2Below` | Coinjoin.py:22 | `FloorLog2(n) < k` exactly when `n < 2^k`, so the test `bits < 6` means fewer than 64 outputs |
| `Coinjoin.HasSufficientOutputs` | Coinjoin.py:20-31 | raises (`Err(MathDomainError)`) on an empty `vout`; for 1 to 63 outputs it passes iff `|vout| >= |vin|`; from 64 outputs on it passes iff `2*|vout| >= |vin|` |
| `Coinjoin.RepeatTarget` | Coinjoin.py:42 | the target always lies in [3, 5]: it is 3 below 8 outputs, 4 for 8 to 15 outputs and 5 from 16 on |
| `Coinjoin.Occurrences` | Coinjoin.py:43-44 | the Counter entry for a value: how many outputs carry it, never more than `|vout|`; outputs without a value are not counted |
| `Coinjoin.HasRepeatedOutputValue` | Coinjoin.py:33-55 | the tally loop and the check return true iff there are at least 3 outputs and some value occurs at least `RepeatTarget(|vout|)` times |
| `Coinjoin.AnyCountReaches` | Coinjoin.py:47 | `any(count >= target ...)` over the tally: true iff some tallied value's count reaches the target |
| `Coinjoin.OccurrencesIgnoreOrder` | Coinjoin.py:43-44 | outputs holding the same multiset of entries give the same count for every value |
| `Coinjoin.RepeatedValueRuleIgnoresOrder` | Coinjoin.py:38-47 | reordering the outputs never changes the repeated-value verdict |
| `Coinjoin.RepeatedValueRuleBounds` | Coinjoin.py:38-47 | with at least 3 outputs, 5 outputs of one value always pass, and 2 or fewer of every value never pass |
| `Coinjoin.HasSameValueDifferentAddresses` | Coinjoin.py:104-119 | the nested scan returns false exactly when some visited (value, address) pair has the address last remembered for its value |
| `Coinjoin.RecordAddresses` | Coinjoin.py:110-118 | the inner loop over one output's addresses: it fails iff a repeat occurs among them, and otherwise leaves the map holding the last address per value |
| `Coinjoin.RememberLast` | Coinjoin.py:118 | overwriting `seen_values[value]` keeps the map equal to the last address per value of the pairs visited so far |
| `Coinjoin.SkippedOutputIgnored` | Coinjoin.py:108-110 | an output with no truthy value, or with no address, contributes nothing to the scan, wherever it stands |
| `Coinjoin.NoAddressesNoPairs` | Coinjoin.py:109-110 | if no output has an address, the scan visits no pair |
| `Coinjoin.DistinctPairsPass` | Coinjoin.py:112-118 | if no (value, address) pair occurs twice, rule 4 passes; the rule only rejects some repeats |
| `Coinjoin.OnlyLastAddressCompared` | Coinjoin.py:112-118 | one value with addresses a, b, a passes, but the same outputs ordered a, a, b fail: only the last address is kept, so the verdict depends on order |
| `Coinjoin.HasOpReturnOutput` | Coinjoin.py:132-139 | returns false iff some output has value 0 and script type `"nulldata"` |
| `Coinjoin.IsCoinjoinLike` | Coinjoin.py:12-17 | the classifier with `HasMinimumInputs` (rule 1, true iff `|vin| >= 3`) first: fewer than 3 inputs gives `false` before any logarithm is taken; an empty `vout` gives `false` below 3 inputs and raises otherwise; for a non-empty `vout`, the early-return chain of Coinjoin.py:142-164 equals the conjunction of the six rules |
| `Coinjoin.PositiveVerdictShape` | Coinjoin.py:121-130 | `HasReasonableOutputCount` (rule 5) is false iff `|vout| >= 2*|vin|`, so a positive verdict implies `|vout| < 2*|vin|` and `|vout| == 2*|vin|` is rejected; it also implies at least 3 inputs and 3 outputs, and below 64 outputs `|vin| <= |vout|`, from 64 on `|vin| <= 2*|vout|` |
| `Coinjoin.EqualValueMixAccepted` | Coinjoin.py:142-164 | 5 inputs and 6 outputs valued 1000, 1000, 1000, 500, 700 and 900 pass every rule |

## Left out

- `process_transaction_file` and `main` (JSON loading, unwrapping `"result"`, printing, the match counter) are I/O around the classifier.
- `log_debug` and every `debug` parameter only print and never affect a verdict. The log messages of `has_op_return_output` describe its two outcomes the wrong way round; this has no effect on the verdict.
- The commented-out variant of `has_repeated_output_value` is not live code.
- `Log2.FloorLog2` is exact, while `math.log2` works in floating point. The two agree for any realistic output count. Very large counts near a power of two (around 2^48 and above) could round differently.
- Output values are modelled as exact reals with no float rounding. A non-numeric `value` (a string, or a JSON boolean, which Python treats as 0 or 1) is not modelled.
- A `scriptPubKey` or `vin`/`vout` key that is present but `null` makes Python raise an attribute or type error when the classifier reaches that read (for `vout`, only once rule 1 has passed; for `scriptPubKey`, in rule 4 or when a value-0 output is tested in rule 6). The model treats such a key as absent, which matches Python on every path that does not read it.
- Inputs are modelled only by their count. The rules read nothing else from them.
- The input-address-diversity rule and a record-normalisation adapter do not exist in the code, so they are not modelled.
