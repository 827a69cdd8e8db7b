# Hellman time–memory tradeoff against truncated SHA-512, in Dafny

This project models `main.py` of a small cryptanalysis tool. The tool precomputes Hellman chain tables over a truncated SHA-512. Each table maps chain endpoints to chain starts. The tool then inverts truncated digests with the classic lookup: walk forward to an endpoint, replay from the stored start, and check the candidate. The drivers tally successes and failures over grids of `(K, L)` configurations.

Modules (the first four follow the components of `main.py`; `Dict`, `Grid` and `Options` support them):

- `HashChain` (`chain.dfy`): bytes, Python's `d[-n_bytes:]` slice (`Truncate`), `R` (`Reduce`), the hash primitive (`Hasher`), one chain step (`Step`) and `n` steps (`Chain`).
- `Tables` (`table.dfy`): `gen_pre_table` (`GenPreTable`) and `gen_pre_tables_parallel` (`GenPreTablesParallel`). Both are specified by `Built`, the dictionary after the writes `X[endpoint] = x0` of the chains (`Chains`). The table invariant is `WellFormed`.
- `Search` (`search.dfy`): `find_preimage` (`FindPreimage`) and `find_preimage_parallel` (`FindPreimageParallel`). Both are specified by `Lookup`, which is built on the first-hit depth `FirstHit`.
- `Attacks` (`attack.dfy`): the trial verdicts (`Trial1`, `Trial2`), their counts, `attack_1_once`, `attack_2_once`, `attack_1_multy` and `attack_2_multy`.
- `Dict` (`dict.dfy`): a Python dictionary filled by `d[key] = value` writes in order (`Insert`), where a later write to a key replaces an earlier one. Both `X` of `gen_pre_table` and the result dictionaries are built this way.
- `Grid` (`grid.dfy`): the `result[(k, l)]` dictionaries of the multi-trial drivers, written in loop order.
- `Options` (`option.dfy`): `Option`, standing for a result or Python's `None`.

The values of `main.py` are datatypes. `Table(entries, mask)` is the pair `[X, r]` that `gen_pre_table` returns (main.py:30). `Outcome` is `Found`, `NoTables` or `NotFound`, standing for the `True`, `False` and `None` that `attack_2_once` returns (main.py:127-141). `Hasher` is the hash primitive with `n_bytes`.

SHA-512 is not given a body. It is the field `full: Bytes -> Bytes` of `Hasher`, so every result holds for every hash function. Where a length matters, `IsDigest(full)` states that the function returns 64 bytes. Random draws are replaced by values passed in: masks, chain starts and plaintexts. `Draws1` and `Draws2` group the draws of one configuration. Thread-pool `map` calls are sequential loops in table order, which is the order `executor.map` returns. `Count(n)` is `len(range(n))`, so a negative `K`, `L` or `N` gives zero iterations, as in Python.

The program makes no configuration check, and the model follows the code as written:
- No configuration check is made. With `L <= 0`, every chain has zero steps and every lookup returns `None`. With `n_bytes == 0`, the step keeps the whole 64-byte digest, because `d[-0:]` is all of `d`.
- `attack_2_once` has three results: `True`, `False` when there are no tables (`K <= 0`), and `None` when no candidate verifies. It does not return the first verified candidate. `Outcome` keeps the three results apart.
- `if preimage:` tests Python truthiness. An empty candidate `b''` counts as "not found", just like `None` (`Truthy`).

## Model

| member | source | states |
|---|---|---|
| HashChain.Count | main.py:23 | definition: `len(range(n))`, the number of iterations of `for _ in range(n)` (also main.py:26, 47, 56, 100, 151): `n` when `n >= 0`, and 0 otherwise |
| HashChain.IsDigest | main.py:10-11 | definition: `hashlib.sha512(...).digest()` returns 64 bytes on every input |
| HashChain.Truncate | main.py:27 | `d[-nb:]` is the suffix of `d` of length `nb` when `0 < nb <= len(d)`; otherwise it is all of `d` |
| HashChain.Reduce | main.py:6-7 | `R(x, r)` starts with `x` and ends with `r`, and its length is the sum of theirs |
| HashChain.Hasher.Apply | main.py:10-11 | for a 64-byte digest and `1 <= n_bytes <= 64`, the truncated hash has exactly `n_bytes` bytes |
| HashChain.StepLength | main.py:27 | with `n_bytes == 0` a step keeps the whole digest; with `1 <= n_bytes <= 64` it keeps the last `n_bytes` bytes of `SHA512(R(x, r))` |
| HashChain.Step | main.py:27 | one chain step `get_sha512(R(x, r))[-n_bytes:]`; on a 64-byte digest it has `n_bytes` bytes for `1 <= n_bytes <= 64` and all 64 bytes for `n_bytes == 0` or `n_bytes > 64` |
| HashChain.Chain | main.py:26-27 | `n` steps from `x`; after at least one step, with a 64-byte digest and `1 <= n_bytes <= 64`, a chain value has `n_bytes` bytes |
| HashChain.ChainAdd | main.py:26-27 | `a` steps followed by `b` steps equal `a + b` steps from the same start |
| Dict.Insert | main.py:28 | definition: the dictionary after the writes `d[key] = value` in order (also main.py:114), each replacing any earlier value under its key |
| Dict.InsertSnoc | main.py:28 | one more write `d[key] = value` updates that key and nothing else |
| Dict.InsertKeys | main.py:28 | a key is present exactly when some write used it |
| Dict.InsertValue | main.py:28 | every stored value was written under its key |
| Dict.InsertUnique | main.py:114 | a write whose key no other write uses is what the dictionary holds |
| Dict.InsertLastWins | main.py:28 | the last write to a key is what the dictionary holds |
| Dict.InsertLastWriter | main.py:28 | every entry comes from the last write to its key |
| Dict.InsertSize | main.py:28 | there are at most as many entries as writes |
| Tables.Chains | main.py:23-28 | definition: the writes `X[key] = x0` of the chains, one per start, in start order |
| Tables.WellFormed | main.py:21-30 | definition of the table invariant: every key of `X` is `L` steps from its stored start under the table's mask |
| Tables.BuiltTables | main.py:33-39 | definition: the list `gen_pre_tables_parallel` returns, one `[X, r]` per sequence of starts, all with the one mask `r` |
| Tables.Endpoint | main.py:24-27 | the `key` after the inner loop: `L` steps from `x0`, which is `x0` itself when `L <= 0`; when `L >= 1`, with a 64-byte digest and `1 <= n_bytes <= 64`, it has `n_bytes` bytes |
| Tables.Built | main.py:21-28 | the dictionary `X` after the writes `X[key] = x0` of the chains in order |
| Tables.BuiltSnoc | main.py:23-28 | inserting one more chain stores its start under its endpoint and leaves the other entries as they were |
| Tables.BuiltSize | main.py:21-28 | the dictionary built from `K` starts holds at most `K` entries |
| Tables.BuiltWellFormed | main.py:23-28 | every stored `endpoint ↦ x0` satisfies `step^L(x0) == endpoint` under the table's mask |
| Tables.BuiltTablesWellFormed | main.py:33-39 | each table of the multi-table mode has the shared mask and satisfies the table invariant |
| Tables.BuiltKeys | main.py:23-28 | the keys are exactly the endpoints of the supplied starts |
| Tables.BuiltLastWins | main.py:28 | a start whose endpoint no later start reaches is the value stored under that endpoint |
| Tables.BuiltValue | main.py:28 | the value under each key is the last start that reaches that key |
| Tables.CollisionKeepsLater | main.py:28 | two starts with one endpoint leave exactly one entry, which holds the later start |
| Tables.GenPreTable | main.py:18-30 | the table is the last-write-wins dictionary of the chains; the mask is `r` when given and the fresh mask otherwise; the table is well-formed and has at most `K` entries |
| Tables.GenPreTablesParallel | main.py:33-39 | `K` tables in order, each the last-write-wins dictionary of its `K` starts, all sharing one mask, each with at most `K` entries |
| Search.FirstHit | main.py:46-53 | the found depth is the least `j` in range whose chain value is a key; no depth means no `j` in range hits |
| Search.Depth | main.py:46-53 | `found`, with `None` for `-1`: never set when `L <= 0`; when set, it is below `L` and the chain value at that depth is a key of the table |
| Search.Lookup | main.py:42-60 | the lookup misses exactly when no `j` in `[0, L)` has `step^j(target)` as a key, so it always misses when `L <= 0` |
| Search.LookupHit | main.py:47-58 | on a hit, `found` is the least hitting depth, and the result is `R(step^(L-found-1)(table[step^found(target)]), r)`; at `found == L-1` it is `R(start, r)` with no replay |
| Search.LookupSound | main.py:47-58 | on a well-formed table, `step^found(hash(candidate)) == step^found(target)`; at depth 0 the candidate's truncated hash is the target |
| Search.EndpointInverted | main.py:47-58 | a target that is a stored endpoint of a well-formed table, with `L >= 1`, is inverted exactly |
| Search.FindPreimage | main.py:42-60 | the walk-then-replay loops compute `Lookup`, and the table is only read |
| Search.FindPreimageParallel | main.py:63-69 | one lookup result per table, in table order |
| Grid.Shaped | main.py:95-96 | definition: one row of configurations per `k` in `K`, each with one entry per `l` in `L` |
| Grid.Distinct | main.py:95-96 | definition: no value occurs twice in `K` (or in `L`) |
| Grid.RowCells | main.py:96-114 | definition: the writes `result[(k, l)] = ...` of one `k`, in the order of `L` |
| Grid.Rows | main.py:95-114 | definition: the writes of the first `i` values of `K`, in loop order |
| Grid.Fill | main.py:94-116 | definition: the `result` dictionary after all writes of the nested loops (also main.py:145-166) |
| Grid.RowStep | main.py:114 | the write for cell `(k, l)` updates the dictionary so far at `(k, l)` |
| Grid.RowBounds | main.py:96 | an inner loop that has not started writes nothing, and a finished one completes its row |
| Grid.RowsMembers | main.py:95-114 | a write is among the first `i` rows exactly when it is the cell `(K[a], L[b])` with its tally, for some `a < i` |
| Grid.FillKeys | main.py:95-96 | the result dictionary's keys are exactly the pairs `(k, l)` of `K × L` |
| Grid.FillValue | main.py:114 | every entry of the result is the tally of some configuration with that key |
| Grid.FillExact | main.py:114 | with no repeated `k` or `l`, every configuration's tally is in the result |
| Attacks.Truthy | main.py:105 | `if preimage:` (also main.py:79 and 157): `None` and the empty byte string are false, any other candidate is true |
| Attacks.Verifies | main.py:105-108 | (also main.py:157-160) a candidate verifies when it is truthy and its truncated SHA-512 equals the truncated target |
| Attacks.Trial1 | main.py:101-108 | one trial of attack 1: the plaintext's truncated digest is looked up in the one table and the candidate verifies |
| Attacks.Trial2 | main.py:152-160 | one trial of attack 2: some table's candidate for the plaintext's truncated digest verifies |
| Attacks.CountTrue | main.py:100-113 | the number of successes is at most the number of trials, and equals it exactly when every trial succeeds |
| Attacks.CountTrueSnoc | main.py:109 | one more trial adds one success exactly when it succeeds |
| Attacks.Verdicts1 | main.py:100-113 | the verdict of attack 1 on each plaintext, in trial order |
| Attacks.Verdicts2 | main.py:151-163 | the verdict of attack 2 on each plaintext, in trial order |
| Attacks.Successes1 | main.py:100-113 | the success count is at most `N`, and it equals `N` exactly when every trial verifies |
| Attacks.Successes2 | main.py:151-163 | the success count is at most `N`, and it equals `N` exactly when every trial has some table that verifies |
| Attacks.Successes1Snoc | main.py:100-113 | after one more plaintext the count of attack 1 grows by one exactly when that trial verifies |
| Attacks.Successes2Snoc | main.py:151-163 | after one more plaintext the count of attack 2 grows by one exactly when some table verifies for it |
| Attacks.SingleTableSuccesses | main.py:150-163 | with a single table, attack 2 counts the same successes as attack 1 |
| Attacks.EndpointTrialSucceeds | main.py:101-109 | a plaintext whose truncated digest is a stored endpoint is recovered, given `L >= 1` and a non-empty mask |
| Attacks.Attack1Once | main.py:72-90 | the printed verdict is success exactly when the candidate is non-empty and its truncated hash equals the target's |
| Attacks.Attack2Once | main.py:119-141 | `NoTables` exactly when `K <= 0`, and `Found` exactly when some table's candidate verifies |
| Attacks.CheckCandidates | main.py:131-139 | the loop reports success exactly when some candidate is truthy and its truncated hash equals the target |
| Attacks.Trials1 | main.py:98-113 | `success` counts the verified trials, and `success + not_found == N` |
| Attacks.Trial2Counts | main.py:152-163 | a trial adds exactly one to `success` (some table verifies) or to `not_found` (none does), never a second success |
| Attacks.Trials2 | main.py:149-163 | `success` counts the trials with a verifying table, and `success + not_found == N` |
| Attacks.Tally1 | main.py:98-114 | `(success, not_found)` of one configuration of attack 1: the verified trials of its table, and the rest; the two sum to `N` |
| Attacks.Tally2 | main.py:149-164 | `(success, not_found)` of one configuration of attack 2: the trials some table verifies, and the rest; the two sum to `N` |
| Attacks.Tallies1 | main.py:95-114 | the `(success, not_found)` of every `(k, l)` configuration of attack 1, row by row; each is that configuration's `Tally1` |
| Attacks.Tallies2 | main.py:146-164 | the `(success, not_found)` of every `(k, l)` configuration of attack 2, row by row; each is that configuration's `Tally2` |
| Attacks.Supplied1 | main.py:95-101 | definition: per `(k, l)`, one mask, `k` starts and `N` plaintexts are drawn |
| Attacks.Supplied2 | main.py:146-152 | definition: per `(k, l)`, one shared mask, `k` tables of `k` starts and `N` plaintexts are drawn |
| Attacks.TalliesTotal1 | main.py:98-114 | every configuration of attack 1 records `N` trials in all |
| Attacks.TalliesTotal2 | main.py:149-164 | every configuration of attack 2 records `N` trials in all |
| Attacks.TallyGrid | main.py:95-114 | the result has one key per `(k, l)`, every entry sums to the common trial count, and without repeated `k` or `l` each entry is its own configuration's tally |
| Attacks.Configuration1 | main.py:97-113 | one configuration's `(success, not_found)` is its specified tally and sums to `N` |
| Attacks.Configuration2 | main.py:148-163 | one configuration's `(success, not_found)` is its specified tally and sums to `N` |
| Attacks.Attack1Multy | main.py:93-116 | one entry per `(k, l)` of `K × L`, each with `success + not_found == N`; without repeated `k` or `l`, each entry is that configuration's tally |
| Attacks.Attack2Multy | main.py:144-166 | one entry per `(k, l)` of `K × L`, each with `success + not_found == N`; without repeated `k` or `l`, each entry is that configuration's tally |

## Left out

- Randomness: `generate_bits` and `random.randbytes` (main.py:14-15). Masks, starts and plaintexts are parameters instead. Their lengths (`n // 8`, `padding // 8` and 32 bytes) are not constrained, and `padding` and `n` do not appear as parameters. One lemma depends on a length: `EndpointTrialSucceeds` assumes a non-empty mask, because an empty mask and an empty replayed start give the falsy candidate `b''`. In `main`, `padding // 8` is 12 bytes, so the mask is non-empty there.
- SHA-512 internals (main.py:10-11): the hash is an arbitrary function. Only the 64-byte output length is assumed, and only where stated.
- Thread pools (main.py:35-38, 64-68): concurrency is not modelled. The maps run sequentially in table order.
- Console output of `attack_1_once`, `attack_2_once` and `main` (main.py:78-90, 125-141, 190-203). Only the verdicts are modelled.
- Menu input, `match` and `exit` in `main` (main.py:169-205), and the constants chosen there.
- The rounded float percentages (main.py:191-192, 200-201).
- Expected success rates: they are probabilistic and outside a deterministic model.
- A negative `n_bytes`: `n_bytes` is a natural number here, while Python would slice from the front.
- The insertion order of the result dictionaries: it only affects the printing order. The keys and values are modelled.
