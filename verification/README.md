# Paillier text algebra and QAT context lifecycle

A Dafny model of two sequential parts of the Intel Paillier Cryptosystem
Library with QAT offload:

- **The batched text algebra** (`ipcl/ciphertext.cpp`, `ipcl/plaintext.cpp`).
  A text is a sequence of big naturals. A ciphertext also carries the public key
  it was produced under, of which only N and N² are read. The model covers:
  - CT+CT: the elementwise product modulo N².
  - CT+PT: encrypt the plaintext, then CT+CT.
  - CT*PT: the elementwise `modExp` modulo N², with the hybrid ratio rule of the batched `raw_mul`.
  - The operand-size rule, with single-element broadcast, and the same-key check.
  - `getCipherText` and `rotate`.
  - The plaintext conversions and the operators that delegate to the ciphertext side.
  - The flat C handle functions `*_Create`, `*_Destroy`, `*_SaveSize` and `*_Save`, with their HRESULT codes.
- **The QAT context lifecycle** (`he_qat/he_qat_context.c`).
  - `get_qat_instance`: clamps the instance count, then selects instances round-robin.
  - `acquire_qat_devices`: the bring-up sequence, including initialising the buffer pool and the instance configs, and its failure paths.
  - `release_qat_devices`.
  - Every driver call and every inspected pthread result is an input.

Modules:
- `Outcomes`: `Option`, `Result` and the ERROR_CHECK failures.
- `BigNum`: export words and `ModExp`.
- `Texts`: the key, the two text kinds, the size rule and the rotation shared by both text kinds.
- `Ciphertext`, `Plaintext` and `FlatApi`: the operations listed above.
- `QatContext`: the context lifecycle.

ERROR_CHECK throws a runtime error. The model returns `Err` with one `Failure`
constructor per message instead. A null pointer is `None`. A created object
and the words written into a caller's buffer are returned as values.

## Model

| member | source | states |
|---|---|---|
| Texts.Compatible | ipcl/ciphertext.cpp:40-42 | the size rule of CT+CT and CT*PT: an accepted right operand has exactly one element or the left operand's size; a one-element left operand accepts only a one-element right operand (1 with 5 is rejected) |
| Texts.Rotate | ipcl/ciphertext.cpp:121-137 | rejects a one-element batch first, then a shift outside [-n, n]; accepts exactly the rest; shifts 0, n and -n return the batch unchanged; otherwise element i of the result is element (i - shift) mod n, length preserved |
| Texts.StdRotate | ipcl/ciphertext.cpp:134-135 | std::rotate with middle k: the first n-k results are elements k.., the rest wrap around to the front |
| Texts.RotateInverse | ipcl/ciphertext.cpp:121-137 | every accepted rotation is undone by rotating by the opposite shift |
| BigNum.ToWords | ipcl/plaintext.cpp:38-45 | a number's export is at least one 32-bit word |
| BigNum.WordsRoundTrip | ipcl/plaintext.cpp:38-45 | reading the exported little-endian words back gives the number |
| BigNum.FirstWord | ipcl/plaintext.cpp:123-124 | the word Save writes for an element is its first export word |
| BigNum.FirstWordOfWord | ipcl/plaintext.cpp:123-124 | a value below 2^32 exports as itself alone, so Save writes it unchanged |
| BigNum.ModExp | ipcl/ciphertext.cpp:147-150 | modExp results lie below the modulus |
| Ciphertext.RawAdd | ipcl/ciphertext.cpp:139-145 | raw_add reduces below N² |
| Ciphertext.RawMul | ipcl/ciphertext.cpp:147-150 | scalar raw_mul reduces below N² |
| Ciphertext.SelectRatio | ipcl/ciphertext.cpp:157-163 | in OPTIMAL mode the ratio becomes FULL iff the batch is at most the threshold and MULTIPLY iff above it; otherwise the setting is untouched; the mode never changes |
| Ciphertext.RawMulBatch | ipcl/ciphertext.cpp:152-166 | one modExp per pair, on the operands as given, whatever ratio is selected |
| Ciphertext.Add | ipcl/ciphertext.cpp:39-76 | size mismatch rejected before the key check; otherwise accepted iff both keys have the same N; result under the lhs key, of lhs length, element i = a[i]·b[i or 0] mod N², all below N² |
| Ciphertext.AddPlain | ipcl/ciphertext.cpp:79-84 | only the size rule can reject; element i = a[i]·enc(p[i or 0]) mod N² under the lhs key |
| Ciphertext.Mul | ipcl/ciphertext.cpp:87-110 | accepted iff the size rule holds (no key check); element i = modExp(a[i], p[i or 0], N²); a one-element lhs leaves the hybrid setting alone, a larger batch applies the ratio rule |
| Ciphertext.GetCipherText | ipcl/ciphertext.cpp:112-117 | rejected iff idx >= size; otherwise the one-element ciphertext of element idx under the same key |
| Ciphertext.Rotate | ipcl/ciphertext.cpp:121-137 | the rotation law of the batch, key unchanged; 0 and ±n give the same ciphertext |
| Ciphertext.RotateInverse | ipcl/ciphertext.cpp:121-137 | rotating back by -shift restores the ciphertext, key included |
| Ciphertext.RotateThenGet | ipcl/ciphertext.cpp:112-137 | element idx of a rotated ciphertext is element (idx - shift) mod n of the original |
| Ciphertext.AddBroadcast | ipcl/ciphertext.cpp:55-73 | adding a one-element ciphertext equals adding the ciphertext that repeats it |
| Ciphertext.AddPlainBroadcast | ipcl/ciphertext.cpp:79-84 | adding a one-element plaintext equals adding the plaintext that repeats it |
| Ciphertext.AddCommutes | ipcl/ciphertext.cpp:39-76 | for equal-size batches, a+b and b+a are accepted or rejected alike and compute the same batch; each result carries its own left operand's key |
| Ciphertext.MulIgnoresHybrid | ipcl/ciphertext.cpp:152-166 | the ciphertext CT*PT computes is the same for every hybrid setting and threshold |
| Ciphertext.MulBroadcast | ipcl/ciphertext.cpp:100-107 | multiplying by a one-element plaintext equals multiplying by the expanded vector of copies |
| Plaintext.Add | ipcl/plaintext.cpp:30-32 | PT+CT is CT+PT: accepted iff the size rule holds, result under the ciphertext's key with its length |
| Plaintext.Mul | ipcl/plaintext.cpp:34-36 | PT*CT is CT*PT: accepted iff the size rule holds, element i = modExp(c[i], p[i or 0], N²) |
| Plaintext.ToWordVector | ipcl/plaintext.cpp:38-45 | rejected iff empty; otherwise a non-empty word vector denoting element 0 |
| Plaintext.ToBigNumber | ipcl/plaintext.cpp:47-50 | rejected iff empty; otherwise element 0 |
| Plaintext.ToBigNumbers | ipcl/plaintext.cpp:52-56 | rejected iff empty; otherwise all elements unchanged |
| Plaintext.ConversionsAgree | ipcl/plaintext.cpp:38-56 | the three conversions denote the same leading element |
| Plaintext.Rotate | ipcl/plaintext.cpp:58-74 | same acceptance and rotation law as for ciphertexts; 0 and ±n return the same plaintext |
| Plaintext.RotateInverse | ipcl/plaintext.cpp:58-74 | rotating back by -shift restores the plaintext |
| FlatApi.Code | ipcl/include/ipcl/defines.h:27-33 | only S_OK has the value 0 |
| FlatApi.SaveElements | ipcl/ciphertext.cpp:200-213 | non-zero *out_len gives E_INVALIDARG before the handle is looked at; null handle gives E_POINTER; success iff neither, writing word i = first export word of element i for i < size and ending with *out_len == size; nothing written on failure |
| FlatApi.PlainTextCreate1 | ipcl/plaintext.cpp:80-87 | S_OK iff the slot is non-null, and then an empty plaintext; E_POINTER otherwise |
| FlatApi.PlainTextCreate2 | ipcl/plaintext.cpp:89-97 | S_OK iff the slot is non-null, and then a plaintext holding input[0..len) in order |
| FlatApi.PlainTextDestroy | ipcl/plaintext.cpp:99-106 | S_OK iff the handle is non-null, E_POINTER otherwise |
| FlatApi.PlainTextSaveSize | ipcl/plaintext.cpp:108-115 | S_OK iff both pointers are non-null, reporting the element count; E_POINTER otherwise |
| FlatApi.PlainTextSave | ipcl/plaintext.cpp:117-130 | the Save contract for a plaintext handle |
| FlatApi.PlainTextSaveRoundTrip | example/example_c_add_mul.cpp:257-278 | Create2 from 32-bit words, SaveSize, then Save with that size writes back exactly input[0..len) and sets *out_len to len |
| FlatApi.CipherTextCreate1 | ipcl/ciphertext.cpp:172-179 | S_OK iff the slot is non-null, and then an empty ciphertext without a key |
| FlatApi.CipherTextDestroy | ipcl/ciphertext.cpp:181-188 | S_OK iff the handle is non-null, E_POINTER otherwise |
| FlatApi.CipherTextSaveSize | ipcl/ciphertext.cpp:191-198 | S_OK iff both pointers are non-null, reporting the element count |
| FlatApi.CipherTextSave | ipcl/ciphertext.cpp:200-213 | the Save contract for a ciphertext handle |
| QatContext.MaxInstances | he_qat/he_qat_context.c:21-25 | the handle table has at least one entry; it exceeds NUM_ACTIVE_INSTANCES exactly in a user-space build, and has one entry otherwise |
| QatContext.InitialSelector | he_qat/he_qat_context.c:47-49 | the zero-initialised statics: no instance known, index 0, every table entry NULL, selector invariant holds |
| QatContext.InitialContext | he_qat/he_qat_context.c:29-39 | the zero-initialised globals: context inactive with nothing held from the driver, a fresh selector, every free and ready flag 0, every config with a NULL handle and id 0 |
| QatContext.ClampCount | he_qat/he_qat_context.c:54-60 | the instance count is min(reported, MAX_INSTANCES, NUM_ACTIVE_INSTANCES) |
| QatContext.GetInstance | he_qat/he_qat_context.c:46-85 | keeps indices in range; a successful first query returns instance 0 without advancing; zero instances give NULL with the state unchanged so the next call queries again; a failed query gives NULL; later calls advance next to (next+1) mod count and return that handle |
| QatContext.LookupInstances | he_qat/he_qat_context.c:119-125 | a successful lookup yields one handle per active instance; indices stay in range |
| QatContext.LookupRoundRobin | he_qat/he_qat_context.c:82-84 | once k instances are known, the handle collected at step j is instance j mod k |
| QatContext.LookupFromFresh | he_qat/he_qat_context.c:52-84 | from a fresh selector and a healthy driver with k > 0 instances, lookup succeeds handing out instance i mod k |
| QatContext.LookupNoInstances | he_qat/he_qat_context.c:52-80 | with no instance reported the lookup fails at once and leaves the selector unchanged |
| QatContext.InitBuffers | he_qat/he_qat_context.c:137-166 | afterwards nothing is staged, every outstanding buffer is free and not ready, all counts and cursors are 0 and all slots NULL |
| QatContext.InitConfigs | he_qat/he_qat_context.c:172-196 | config i has id i and handle i and is inactive, not polling, not running, status FAIL |
| QatContext.BringUp | he_qat/he_qat_context.c:94-211 | memory-init failure changes nothing; SAL-start failure undoes the memory init; lookup failure leaves both up with the state unchanged; otherwise the context is active with the pool and configs initialised |
| QatContext.Release | he_qat/he_qat_context.c:237-264 | always SUCCESS and always ends inactive; a no-op when already inactive; otherwise workers, SAL and memory are all released; selector and instance configs are left as they were |
| QatContext.ReleaseIdempotent | he_qat/he_qat_context.c:237-264 | releasing twice is releasing once |
| QatContext.Acquire | he_qat/he_qat_context.c:90-232 | SUCCESS iff every step succeeds, and then active with pool and configs initialised; any failure from state 0 leaves state 0; SAL failure undoes the memory init; lookup failure leaves memory and SAL up |
| QatContext.AcquireRoundRobin | he_qat/he_qat_context.c:119-196 | a fresh successful acquire binds instance config i to instance i mod k |
| QatContext.LookupFailureStrandsDriver | he_qat/he_qat_context.c:119-124 | from a quiescent context whose first instance query fails or finds no instance, acquire returns FAIL with memory and SAL still up, and release cannot undo it |
| QatContext.NoInstanceStrandsDriver | he_qat/he_qat_context.c:52-80 | concretely: a user-space build whose driver reports 0 instances ends FAIL, inactive, with memory and SAL still up |
| QatContext.AcquireWithCleanup | he_qat/he_qat_context.c:105-124 | same status as acquire and same context on success, but every failure from a quiescent context leaves it quiescent |

## Left out

- modExp: the batched, hardware-routed implementation lives in `ipcl/mod_exp.hpp`, which is not part of this model. `ModExp` is `b^e mod m` and is pure. The hybrid routing therefore cannot change a value.
- isHybridOptimal and setHybridRatio are external. They are modelled as the `HybridConfig` record that the batched raw_mul reads and returns. The float ratio constants are labels.
- IPCL_WORKLOAD_SIZE_THRESHOLD is defined in a header that is not part of this model. It is a parameter.
- Ciphertext.AddPlain: the library's encrypt is not part of this model. The encryption is a parameter `enc` applied to each element. No randomness or decryption law is modelled.
- Key generation, encrypt, decrypt and the homomorphic decryption laws have no visible implementation.
- OpenMP: the parallel loops in CT+CT are a sequential elementwise map.
- Ciphertext.Add, Ciphertext.Mul, Ciphertext.GetCipherText, Ciphertext.Rotate: these require the key only on the paths where the code dereferences it. A default-constructed ciphertext has a null key pointer, and dereferencing it is undefined behaviour.
- Texts.Rotate: the range checks compare an `int` shift with the batch size. The size's type is declared in a header that is not part of this model, so signed/unsigned conversion effects are not modelled. The model uses the mathematical range -n..n.
- BigNumber internals: a value is a `nat`. `getElementVec`/`num2vec` are assumed to export little-endian 32-bit words, with zero exported as one zero word.
- FlatApi.SaveElements: requires `size` to be at most the element count. What `getElementVec` does past the end is defined in a header that is not part of this model. The `int` loop counter is not bounded.
- FlatApi.SaveElements: `*out_len` is read before any check, so a null `out_len` crashes; the model takes its value as a `nat` and cannot represent that crash.
- FlatApi.SaveElements: `outptr` is written with no null or capacity check, so a null or too-short `outptr` with `size > 0` crashes or overruns; the model returns the written words instead and cannot represent either case.
- FlatApi.PlainTextSave: requires `size` to be at most the element count, for the same reason as SaveElements; the null `out_len` and null or short `outptr` crashes are not represented either.
- FlatApi.CipherTextSave: requires `size` to be at most the element count, for the same reason as SaveElements; the null `out_len` and null or short `outptr` crashes are not represented either.
- FlatApi.PlainTextCreate2: requires `0 <= len <= |input|`, because the code reads `input[0..len)`.
- `*_Create` handle slots are reduced to null or non-null. The created object is returned rather than stored through the slot. Object allocation is not modelled.
- CipherText_Save2, CipherText_Load2 and the other cereal/JSON functions perform file I/O. They and the `ipcl_c.h` key wrappers are left out.
- The QAT driver calls are inputs: qaeMemInit, icp_sal_userStartMultiProcess, cpaCyGetNumInstances, cpaCyGetInstances, icp_sal_userStop and qaeMemDestroy.
  - When cpaCyGetNumInstances fails, the model still takes its reported count as written.
  - When cpaCyGetInstances fails, the handle table is taken as untouched.
- The following are not modelled: threads, mutexes, condition variables, CPU affinity, pthread_create/detach of the instance threads (their results are ignored by the code), and printf output.
- schedule_requests, start_perform_op and stop_perform_op are external to this model. Release records only that the workers were asked to stop (`workersRunning` becomes false). The worker loops, buffer manager, request submission and fallback are not modelled.
- QatContext.Release: release passes the instance configs to the external stop_perform_op, whose body is not part of this model. The model assumes that call leaves the config records as they were; if it resets active, polling or running, the clause that the configs are unchanged does not hold of the real code.
- stop_perform_op is external, so whether teardown waits for the workers to drain is not modelled.
- HE_QAT_BUFFER_SIZE and HE_QAT_BUFFER_COUNT are defined in a header that is not part of this model. They are the `Dims` parameter.
- MAX_INSTANCES is 1024 for a user-space build and 1 otherwise. Both builds are covered through the `userSpace` flag.
- raw_mul only installs a ratio label. How that ratio splits the modExp work between hardware and software is decided inside `ipcl/mod_exp.hpp`, which is not part of this model.
- Texts.Key keeps only N and N². Any other field of a public key, such as the DJN setting chosen at key generation, is not modelled. Two keys with the same N are therefore equal in the model. Results that carry a key state which operand's key they copy.

## Findings

| source | as written | input that shows it | evidently intended | confidence | as-written member | corrected member |
|---|---|---|---|---|---|---|
| he_qat/he_qat_context.c:119-124 | a failed instance lookup returns FAIL without icp_sal_userStop or qaeMemDestroy; the context stays at state 0, so release_qat_devices returns at once and never stops them | qaeMemInit succeeds, icp_sal_userStartMultiProcess succeeds, cpaCyGetNumInstances reports 0 instances | undo the SAL start and the memory init before returning FAIL, as the SAL-failure path at line 108 already does for memory | medium, not executed | QatContext.LookupFailureStrandsDriver | QatContext.AcquireWithCleanup |
