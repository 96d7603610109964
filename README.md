# Dengue simulator core, modelled in Dafny

This project models the core of the dengue transmission simulator of the
HPC Research Laboratory. The simulator exists in two generations, and the
model covers the core of both.

The GPU generation:

- **Parameter vector.** The Monte Carlo inputs are read into one vector of
  758 doubles. Each of the thirteen input files owns a slice of it: a
  parameter takes two slots, its minimum and its maximum. Access macros read
  a single slot or draw a value between the two with `ENTRE_FAIXA`. The
  modules `Parameters` and `ParamsSim0` … `ParamsGerM5` hold the slice
  layout, every access macro of every header, and proofs of where each macro
  reads.
- **Bit-packed agents.** Every human and mosquito is a record of an id and
  four 32-bit words (*tiras*) packing its attributes. The get and set macros
  mask and shift those words. The modules `Packed`, `HumanBits` and
  `MosquitoBits` model the words as `bv32`. They prove that the masks tile
  each word and that a setter changes its own attribute and nothing else
  (for an argument that fits). They also prove that the array setters
  rewrite exactly one element. The object getters `GET_*_H_`/`GET_*_M_` and
  the indexed getters `GET_*_H(i)`/`GET_*_M(i)` are one function, `Get`,
  applied to the record or to the array element.
- **Shared codes.** `General` holds the shared constants (states, sexes,
  serotypes, age groups, phases) and the row/column index arithmetic `VEC`.

The graph generation:

- **Environment.** The environment is built from GeoJSON features: Point
  features become stored points, and a LineString links consecutive matched
  points both ways. `GraphEnvironment` models `size`, `get_nth_point_id`,
  `get_points`, `get_edges` and `from_geojson`.
- **Agents.** The agents are identified by their id alone: `operator==` and
  `std::hash` both look only at the id. This is modelled in `AgentHuman`,
  `AgentMosquito`, `AgentVariant`, `SimulatorHuman` and `SimulatorMosquito`.
- **Simulation.** `GraphSimulation.Simulation` models the simulation: an
  insertion of the initial cohorts, then `cycles` rounds of movement,
  contact and transition. The hash sets of agents are sequences that insert
  by id. The random generators are oracles passed in as functions.

There is one discrepancy between the header and the documented file layout.
The egg control macro of the mosquito control file starts two parameters
too far, and so reads past its file's slice. It is listed under
"## Findings". Both halves are modelled: the macro as written and the
corrected one.

## Model

Functions that only compute carry no contract of their own; the rows name
the lemmas that specify them:

- `General.Vec`, `Row` and `Col` (`VEC`): `VecInverse`, `VecOfRowCol`, `VecInjective` and `MulLess`.
- `Parameters.EntreFaixa` (`ENTRE_FAIXA`) and `Resolve`: the `EntreFaixa*` lemmas, `ResolvedInRange` and `ResolvedIntInRange`. `MinSlot`, `Slots` and `ReadsParameter`: `ParameterOfRead`, `ParameterInSlice` and `DistinctParametersDisjoint`.
- `ReadOf`, `CastOf`, `Number` and `Owner` of each `Params*` module (the access macros of one header): that module's `ReadsItsParameter`, `ReadsInsideSlice`, `ReadsDisjoint`, `NumberInjective` and the `Variant*Agree*` lemmas. `ParamsConM4.ReadOfAsWritten`: the `ParamsConM4.AsWritten*` lemmas.
- `HumanBits` and `MosquitoBits`: the per-attribute `ReadX`, `WriteX`, `GetX` and `WithX` (`GET_X_H`, `SET_X_H` and their mosquito forms) by `SetX` and `ReadXFits`, and by the helper `XIsTable` that `ReadWriteIsTable` collects. `Read` and `Write` by `ReadWriteIsTable` and `WriteThenRead`. `Get` and `WithField` (`GET_H`/`SET_H` by attribute name) by `FieldIsTable` and `WithFieldReadBack`. `GetAt` and `GetIdAt` by `SetAt` and `SetIdAt`.
- `GraphEnvironment.Size` (`size`): `SizeIsOrderLength`, `NthPointIdInjective` and `NthPointIdCovers`. `PointsOf`: `GetPoints` and `PointsGrow`. `EdgePairs`: `EdgePairsShape`, `LinePairsJoin`, `LinePairsSymmetric` and `FromGeoJson`.
- `Equals` and `Hash` of `AgentHuman`, `AgentMosquito`, `SimulatorHuman` and `SimulatorMosquito` (`operator==` and `std::hash`): each module's `EqualsIgnoresMutableFields`, `EqualsIsEquivalence` and `EqualsAgreesWithHash`, and `AgreesWithAgent` for the last two. `AgentVariant.Hash`: `HashOfAlternative`, `SameIdSameHash` and `HashDependsOnIdOnly`.

| member | source | states |
|---|---|---|
| Packed.WithWord | Fontes/Humanos/Humanos.h:37 | replacing one of the four words of an agent record sets that word and keeps the id and the other three words |
| Packed.RecordExtensionality | Fontes/Mosquitos/Mosquitos.h:40 | two records with the same id and the same four words are the same record |
| Packed.WithWordTwice | Fontes/Humanos/Humanos.h:37 | a second replacement of the same word overrides the first |
| Packed.WithWordSame | Fontes/Humanos/Humanos.h:37 | putting back the word already there leaves the record unchanged |
| HumanBits.Width | src/Macros/MacrosHumanos.h:39-59 | every attribute width TH_ is between 1 and 31 bits |
| HumanBits.Shift | src/Macros/MacrosHumanos.h:65-85 | every attribute shift AH_ is below 32 |
| HumanBits.PosMaskLayout | src/Macros/MacrosHumanos.h:91-111 | each positive mask MAH_ is the run of TH_ one-bits starting at bit AH_, and that run fits in the word |
| HumanBits.NegMaskLayout | src/Macros/MacrosHumanos.h:117-137 | each negative mask NMH_ is the bitwise complement of the positive mask |
| HumanBits.LimitLayout | src/Macros/MacrosHumanos.h:4-33 | the number of values an attribute can hold, as the header comment lists it, is 2 to the power of its width |
| HumanBits.Adjacent | src/Macros/MacrosHumanos.h:4-85 | within each word the attributes sit end to end in the documented order: word 1 uses all 32 bits, word 2 the low 28 (4 spare bits), words 3 and 4 all 32 |
| HumanBits.Tira1Tiles | src/Macros/MacrosHumanos.h:146-150 | word 1 equals its five attributes read out and shifted back into place |
| HumanBits.Tira2Tiles | src/Macros/MacrosHumanos.h:152-160 | the low 28 bits of word 2 equal its nine attributes read out and shifted back into place |
| HumanBits.Tira34Tiles | src/Macros/MacrosHumanos.h:162-166 | words 3 and 4 equal their two attributes each read out and shifted back into place |
| HumanBits.SetR | src/Macros/MacrosHumanos.h:205 | writing a value below 8 into R of a human reads it back, leaves the other attributes of word 1 and every other word untouched, a second write overrides the first, and writing back the current value changes nothing |
| HumanBits.SetT | src/Macros/MacrosHumanos.h:206 | writing a value below 65536 into T of a human reads it back, leaves the other attributes of word 1 and every other word untouched, a second write overrides the first, and writing back the current value changes nothing |
| HumanBits.SetF | src/Macros/MacrosHumanos.h:207 | writing a value below 2 into F of a human reads it back, leaves the other attributes of word 1 and every other word untouched, a second write overrides the first, and writing back the current value changes nothing |
| HumanBits.SetM | src/Macros/MacrosHumanos.h:208 | writing a value below 1024 into M of a human reads it back, leaves the other attributes of word 1 and every other word untouched, a second write overrides the first, and writing back the current value changes nothing |
| HumanBits.SetK | src/Macros/MacrosHumanos.h:209 | writing a value below 4 into K of a human reads it back, leaves the other attributes of word 1 and every other word untouched, a second write overrides the first, and writing back the current value changes nothing |
| HumanBits.SetCR | src/Macros/MacrosHumanos.h:211 | writing a value below 8 into CR of a human reads it back, leaves the other attributes of word 2 and every other word untouched, a second write overrides the first, and writing back the current value changes nothing |
| HumanBits.SetS | src/Macros/MacrosHumanos.h:212 | writing a value below 2 into S of a human reads it back, leaves the other attributes of word 2 and every other word untouched, a second write overrides the first, and writing back the current value changes nothing |
| HumanBits.SetFE | src/Macros/MacrosHumanos.h:213 | writing a value below 8 into FE of a human reads it back, leaves the other attributes of word 2 and every other word untouched, a second write overrides the first, and writing back the current value changes nothing |
| HumanBits.SetSD | src/Macros/MacrosHumanos.h:214 | writing a value below 8 into SD of a human reads it back, leaves the other attributes of word 2 and every other word untouched, a second write overrides the first, and writing back the current value changes nothing |
| HumanBits.SetST | src/Macros/MacrosHumanos.h:215 | writing a value below 8 into ST of a human reads it back, leaves the other attributes of word 2 and every other word untouched, a second write overrides the first, and writing back the current value changes nothing |
| HumanBits.SetSC | src/Macros/MacrosHumanos.h:216 | writing a value below 16 into SC of a human reads it back, leaves the other attributes of word 2 and every other word untouched, a second write overrides the first, and writing back the current value changes nothing |
| HumanBits.SetA | src/Macros/MacrosHumanos.h:217 | writing a value below 2 into A of a human reads it back, leaves the other attributes of word 2 and every other word untouched, a second write overrides the first, and writing back the current value changes nothing |
| HumanBits.SetC | src/Macros/MacrosHumanos.h:218 | writing a value below 256 into C of a human reads it back, leaves the other attributes of word 2 and every other word untouched, a second write overrides the first, and writing back the current value changes nothing |
| HumanBits.SetCV | src/Macros/MacrosHumanos.h:219 | writing a value below 4 into CV of a human reads it back, leaves the other attributes of word 2 and every other word untouched, a second write overrides the first, and writing back the current value changes nothing |
| HumanBits.SetX | src/Macros/MacrosHumanos.h:221 | writing a value below 524288 into X of a human reads it back, leaves the other attributes of word 3 and every other word untouched, a second write overrides the first, and writing back the current value changes nothing |
| HumanBits.SetL | src/Macros/MacrosHumanos.h:222 | writing a value below 8192 into L of a human reads it back, leaves the other attributes of word 3 and every other word untouched, a second write overrides the first, and writing back the current value changes nothing |
| HumanBits.SetY | src/Macros/MacrosHumanos.h:224 | writing a value below 8388608 into Y of a human reads it back, leaves the other attributes of word 4 and every other word untouched, a second write overrides the first, and writing back the current value changes nothing |
| HumanBits.SetQ | src/Macros/MacrosHumanos.h:225 | writing a value below 512 into Q of a human reads it back, leaves the other attributes of word 4 and every other word untouched, a second write overrides the first, and writing back the current value changes nothing |
| HumanBits.ReadRFits | src/Macros/MacrosHumanos.h:146 | GET_R_H of any word is below 8, the number of values its width allows |
| HumanBits.ReadTFits | src/Macros/MacrosHumanos.h:147 | GET_T_H of any word is below 65536, the number of values its width allows |
| HumanBits.ReadFFits | src/Macros/MacrosHumanos.h:148 | GET_F_H of any word is below 2, the number of values its width allows |
| HumanBits.ReadMFits | src/Macros/MacrosHumanos.h:149 | GET_M_H of any word is below 1024, the number of values its width allows |
| HumanBits.ReadKFits | src/Macros/MacrosHumanos.h:150 | GET_K_H of any word is below 4, the number of values its width allows |
| HumanBits.ReadCRFits | src/Macros/MacrosHumanos.h:152 | GET_CR_H of any word is below 8, the number of values its width allows |
| HumanBits.ReadSFits | src/Macros/MacrosHumanos.h:153 | GET_S_H of any word is below 2, the number of values its width allows |
| HumanBits.ReadFEFits | src/Macros/MacrosHumanos.h:154 | GET_FE_H of any word is below 8, the number of values its width allows |
| HumanBits.ReadSDFits | src/Macros/MacrosHumanos.h:155 | GET_SD_H of any word is below 8, the number of values its width allows |
| HumanBits.ReadSTFits | src/Macros/MacrosHumanos.h:156 | GET_ST_H of any word is below 8, the number of values its width allows |
| HumanBits.ReadSCFits | src/Macros/MacrosHumanos.h:157 | GET_SC_H of any word is below 16, the number of values its width allows |
| HumanBits.ReadAFits | src/Macros/MacrosHumanos.h:158 | GET_A_H of any word is below 2, the number of values its width allows |
| HumanBits.ReadCFits | src/Macros/MacrosHumanos.h:159 | GET_C_H of any word is below 256, the number of values its width allows |
| HumanBits.ReadCVFits | src/Macros/MacrosHumanos.h:160 | GET_CV_H of any word is below 4, the number of values its width allows |
| HumanBits.ReadXFits | src/Macros/MacrosHumanos.h:162 | GET_X_H of any word is below 524288, the number of values its width allows |
| HumanBits.ReadLFits | src/Macros/MacrosHumanos.h:163 | GET_L_H of any word is below 8192, the number of values its width allows |
| HumanBits.ReadYFits | src/Macros/MacrosHumanos.h:165 | GET_Y_H of any word is below 8388608, the number of values its width allows |
| HumanBits.ReadQFits | src/Macros/MacrosHumanos.h:166 | GET_Q_H of any word is below 512, the number of values its width allows |
| HumanBits.SetAt | src/Macros/MacrosHumanos.h:202-225 | SET_*_H on element i of the human array replaces that element by the record with the attribute rewritten and leaves every other element unchanged; the element keeps its id, and a value below the attribute's limit is read back by GET_*_H |
| HumanBits.SetIdAt | src/Macros/MacrosHumanos.h:231-233 | SET_ID_H overwrites the id of element i (the argument reduced modulo 2^32) and nothing else |
| HumanBits.ReadWriteIsTable | src/Macros/MacrosHumanos.h:144-225 | on a word, GET_H of attribute f is the word under f's positive mask shifted down by f's shift, and SET_H is the word under f's negative mask or'd with the value shifted up by f's shift: the accessors use the tabulated masks and shifts |
| HumanBits.WriteThenRead | src/Macros/MacrosHumanos.h:144-225 | on a word, a value below the attribute's limit is read back after SET_H, a second SET_H of the same attribute overrides the first, and writing back the value read leaves the word unchanged |
| HumanBits.FieldIsTable | src/Macros/MacrosHumanos.h:144-225 | for every attribute of a record, GET_H selects the attribute's word and applies its positive mask and shift, and SET_H replaces that word alone by the word under the negative mask or'd with the shifted value |
| HumanBits.WithFieldReadBack | src/Macros/MacrosHumanos.h:144-225 | by attribute name, a value below the limit is read back; the id, the other three words and every attribute stored in them are kept; a second write overrides the first; writing back the value read changes nothing |
| MosquitoBits.Width | Fontes/Macros/MacrosMosquitos.h:50-76 | every attribute width TM_ is between 1 and 31 bits |
| MosquitoBits.Shift | Fontes/Macros/MacrosMosquitos.h:82-108 | every attribute shift AM_ is below 32 |
| MosquitoBits.PosMaskLayout | Fontes/Macros/MacrosMosquitos.h:114-140 | each positive mask MAM_ is the run of TM_ one-bits starting at bit AM_, and that run fits in the word |
| MosquitoBits.NegMaskLayout | Fontes/Macros/MacrosMosquitos.h:146-172 | each negative mask NMM_ is the bitwise complement of the positive mask |
| MosquitoBits.LimitLayout | Fontes/Macros/MacrosMosquitos.h:4-44 | the number of values an attribute can hold, as the header comment lists it, is 2 to the power of its width |
| MosquitoBits.Adjacent | Fontes/Macros/MacrosMosquitos.h:4-108 | within each word the attributes sit end to end in the documented order: word 1 uses the low 24 bits, word 2 the low 31, words 3 and 4 all 32 |
| MosquitoBits.Tira1Tiles | Fontes/Macros/MacrosMosquitos.h:181-188 | the low 24 bits of word 1 equal its eight attributes read out and shifted back into place |
| MosquitoBits.Tira2Tiles | Fontes/Macros/MacrosMosquitos.h:190-201 | the low 31 bits of word 2 equal its twelve attributes read out and shifted back into place |
| MosquitoBits.Tira34Tiles | Fontes/Macros/MacrosMosquitos.h:203-207 | words 3 and 4 equal their two attributes each read out and shifted back into place |
| MosquitoBits.OversizedValueSpills | Fontes/Macros/MacrosMosquitos.h:249-250 | the setter does not mask its argument: writing 32 into the 5-bit counter C sets the life bit VD above it |
| MosquitoBits.SetS | Fontes/Macros/MacrosMosquitos.h:252 | writing a value below 2 into S of a mosquito reads it back, leaves the other attributes of word 1 and every other word untouched, a second write overrides the first, and writing back the current value changes nothing |
| MosquitoBits.SetSW | Fontes/Macros/MacrosMosquitos.h:253 | writing a value below 2 into SW of a mosquito reads it back, leaves the other attributes of word 1 and every other word untouched, a second write overrides the first, and writing back the current value changes nothing |
| MosquitoBits.SetFS | Fontes/Macros/MacrosMosquitos.h:254 | writing a value below 8 into FS of a mosquito reads it back, leaves the other attributes of word 1 and every other word untouched, a second write overrides the first, and writing back the current value changes nothing |
| MosquitoBits.SetIE | Fontes/Macros/MacrosMosquitos.h:255 | writing a value below 256 into IE of a mosquito reads it back, leaves the other attributes of word 1 and every other word untouched, a second write overrides the first, and writing back the current value changes nothing |
| MosquitoBits.SetSD | Fontes/Macros/MacrosMosquitos.h:256 | writing a value below 4 into SD of a mosquito reads it back, leaves the other attributes of word 1 and every other word untouched, a second write overrides the first, and writing back the current value changes nothing |
| MosquitoBits.SetST | Fontes/Macros/MacrosMosquitos.h:257 | writing a value below 8 into ST of a mosquito reads it back, leaves the other attributes of word 1 and every other word untouched, a second write overrides the first, and writing back the current value changes nothing |
| MosquitoBits.SetVD | Fontes/Macros/MacrosMosquitos.h:258 | writing a value below 2 into VD of a mosquito reads it back, leaves the other attributes of word 1 and every other word untouched, a second write overrides the first, and writing back the current value changes nothing |
| MosquitoBits.SetC | Fontes/Macros/MacrosMosquitos.h:259 | writing a value below 32 into C of a mosquito reads it back, leaves the other attributes of word 1 and every other word untouched, a second write overrides the first, and writing back the current value changes nothing |
| MosquitoBits.SetCR | Fontes/Macros/MacrosMosquitos.h:261 | writing a value below 16 into CR of a mosquito reads it back, leaves the other attributes of word 2 and every other word untouched, a second write overrides the first, and writing back the current value changes nothing |
| MosquitoBits.SetFG | Fontes/Macros/MacrosMosquitos.h:262 | writing a value below 2 into FG of a mosquito reads it back, leaves the other attributes of word 2 and every other word untouched, a second write overrides the first, and writing back the current value changes nothing |
| MosquitoBits.SetTI | Fontes/Macros/MacrosMosquitos.h:263 | writing a value below 4 into TI of a mosquito reads it back, leaves the other attributes of word 2 and every other word untouched, a second write overrides the first, and writing back the current value changes nothing |
| MosquitoBits.SetFM | Fontes/Macros/MacrosMosquitos.h:264 | writing a value below 2 into FM of a mosquito reads it back, leaves the other attributes of word 2 and every other word untouched, a second write overrides the first, and writing back the current value changes nothing |
| MosquitoBits.SetFP | Fontes/Macros/MacrosMosquitos.h:265 | writing a value below 2 into FP of a mosquito reads it back, leaves the other attributes of word 2 and every other word untouched, a second write overrides the first, and writing back the current value changes nothing |
| MosquitoBits.SetFV | Fontes/Macros/MacrosMosquitos.h:266 | writing a value below 2 into FV of a mosquito reads it back, leaves the other attributes of word 2 and every other word untouched, a second write overrides the first, and writing back the current value changes nothing |
| MosquitoBits.SetCG | Fontes/Macros/MacrosMosquitos.h:267 | writing a value below 32 into CG of a mosquito reads it back, leaves the other attributes of word 2 and every other word untouched, a second write overrides the first, and writing back the current value changes nothing |
| MosquitoBits.SetCE | Fontes/Macros/MacrosMosquitos.h:268 | writing a value below 32 into CE of a mosquito reads it back, leaves the other attributes of word 2 and every other word untouched, a second write overrides the first, and writing back the current value changes nothing |
| MosquitoBits.SetPR | Fontes/Macros/MacrosMosquitos.h:269 | writing a value below 8 into PR of a mosquito reads it back, leaves the other attributes of word 2 and every other word untouched, a second write overrides the first, and writing back the current value changes nothing |
| MosquitoBits.SetAM | Fontes/Macros/MacrosMosquitos.h:270 | writing a value below 2 into AM of a mosquito reads it back, leaves the other attributes of word 2 and every other word untouched, a second write overrides the first, and writing back the current value changes nothing |
| MosquitoBits.SetTA | Fontes/Macros/MacrosMosquitos.h:271 | writing a value below 4 into TA of a mosquito reads it back, leaves the other attributes of word 2 and every other word untouched, a second write overrides the first, and writing back the current value changes nothing |
| MosquitoBits.SetCP | Fontes/Macros/MacrosMosquitos.h:272 | writing a value below 32 into CP of a mosquito reads it back, leaves the other attributes of word 2 and every other word untouched, a second write overrides the first, and writing back the current value changes nothing |
| MosquitoBits.SetX | Fontes/Macros/MacrosMosquitos.h:274 | writing a value below 524288 into X of a mosquito reads it back, leaves the other attributes of word 3 and every other word untouched, a second write overrides the first, and writing back the current value changes nothing |
| MosquitoBits.SetL | Fontes/Macros/MacrosMosquitos.h:275 | writing a value below 8192 into L of a mosquito reads it back, leaves the other attributes of word 3 and every other word untouched, a second write overrides the first, and writing back the current value changes nothing |
| MosquitoBits.SetY | Fontes/Macros/MacrosMosquitos.h:277 | writing a value below 8388608 into Y of a mosquito reads it back, leaves the other attributes of word 4 and every other word untouched, a second write overrides the first, and writing back the current value changes nothing |
| MosquitoBits.SetQ | Fontes/Macros/MacrosMosquitos.h:278 | writing a value below 512 into Q of a mosquito reads it back, leaves the other attributes of word 4 and every other word untouched, a second write overrides the first, and writing back the current value changes nothing |
| MosquitoBits.ReadSFits | Fontes/Macros/MacrosMosquitos.h:181 | GET_S_M of any word is below 2, the number of values its width allows |
| MosquitoBits.ReadSWFits | Fontes/Macros/MacrosMosquitos.h:182 | GET_SW_M of any word is below 2, the number of values its width allows |
| MosquitoBits.ReadFSFits | Fontes/Macros/MacrosMosquitos.h:183 | GET_FS_M of any word is below 8, the number of values its width allows |
| MosquitoBits.ReadIEFits | Fontes/Macros/MacrosMosquitos.h:184 | GET_IE_M of any word is below 256, the number of values its width allows |
| MosquitoBits.ReadSDFits | Fontes/Macros/MacrosMosquitos.h:185 | GET_SD_M of any word is below 4, the number of values its width allows |
| MosquitoBits.ReadSTFits | Fontes/Macros/MacrosMosquitos.h:186 | GET_ST_M of any word is below 8, the number of values its width allows |
| MosquitoBits.ReadVDFits | Fontes/Macros/MacrosMosquitos.h:187 | GET_VD_M of any word is below 2, the number of values its width allows |
| MosquitoBits.ReadCFits | Fontes/Macros/MacrosMosquitos.h:188 | GET_C_M of any word is below 32, the number of values its width allows |
| MosquitoBits.ReadCRFits | Fontes/Macros/MacrosMosquitos.h:190 | GET_CR_M of any word is below 16, the number of values its width allows |
| MosquitoBits.ReadFGFits | Fontes/Macros/MacrosMosquitos.h:191 | GET_FG_M of any word is below 2, the number of values its width allows |
| MosquitoBits.ReadTIFits | Fontes/Macros/MacrosMosquitos.h:192 | GET_TI_M of any word is below 4, the number of values its width allows |
| MosquitoBits.ReadFMFits | Fontes/Macros/MacrosMosquitos.h:193 | GET_FM_M of any word is below 2, the number of values its width allows |
| MosquitoBits.ReadFPFits | Fontes/Macros/MacrosMosquitos.h:194 | GET_FP_M of any word is below 2, the number of values its width allows |
| MosquitoBits.ReadFVFits | Fontes/Macros/MacrosMosquitos.h:195 | GET_FV_M of any word is below 2, the number of values its width allows |
| MosquitoBits.ReadCGFits | Fontes/Macros/MacrosMosquitos.h:196 | GET_CG_M of any word is below 32, the number of values its width allows |
| MosquitoBits.ReadCEFits | Fontes/Macros/MacrosMosquitos.h:197 | GET_CE_M of any word is below 32, the number of values its width allows |
| MosquitoBits.ReadPRFits | Fontes/Macros/MacrosMosquitos.h:198 | GET_PR_M of any word is below 8, the number of values its width allows |
| MosquitoBits.ReadAMFits | Fontes/Macros/MacrosMosquitos.h:199 | GET_AM_M of any word is below 2, the number of values its width allows |
| MosquitoBits.ReadTAFits | Fontes/Macros/MacrosMosquitos.h:200 | GET_TA_M of any word is below 4, the number of values its width allows |
| MosquitoBits.ReadCPFits | Fontes/Macros/MacrosMosquitos.h:201 | GET_CP_M of any word is below 32, the number of values its width allows |
| MosquitoBits.ReadXFits | Fontes/Macros/MacrosMosquitos.h:203 | GET_X_M of any word is below 524288, the number of values its width allows |
| MosquitoBits.ReadLFits | Fontes/Macros/MacrosMosquitos.h:204 | GET_L_M of any word is below 8192, the number of values its width allows |
| MosquitoBits.ReadYFits | Fontes/Macros/MacrosMosquitos.h:206 | GET_Y_M of any word is below 8388608, the number of values its width allows |
| MosquitoBits.ReadQFits | Fontes/Macros/MacrosMosquitos.h:207 | GET_Q_M of any word is below 512, the number of values its width allows |
| MosquitoBits.SetAt | Fontes/Macros/MacrosMosquitos.h:249-278 | SET_*_M on element i of the mosquito array replaces that element by the record with the attribute rewritten and leaves every other element unchanged; the element keeps its id, and a value below the attribute's limit is read back by GET_*_M |
| MosquitoBits.SetIdAt | Fontes/Macros/MacrosMosquitos.h:283-285 | SET_ID_M overwrites the id of element i (the argument reduced modulo 2^32) and nothing else |
| MosquitoBits.ReadWriteIsTable | Fontes/Macros/MacrosMosquitos.h:179-278 | on a word, GET_M of attribute f is the word under f's positive mask shifted down by f's shift, and SET_M is the word under f's negative mask or'd with the value shifted up by f's shift: the accessors use the tabulated masks and shifts |
| MosquitoBits.WriteThenRead | Fontes/Macros/MacrosMosquitos.h:179-278 | on a word, a value below the attribute's limit is read back after SET_M, a second SET_M of the same attribute overrides the first, and writing back the value read leaves the word unchanged |
| MosquitoBits.FieldIsTable | Fontes/Macros/MacrosMosquitos.h:179-278 | for every attribute of a record, GET_M selects the attribute's word and applies its positive mask and shift, and SET_M replaces that word alone by the word under the negative mask or'd with the shifted value |
| MosquitoBits.WithFieldReadBack | Fontes/Macros/MacrosMosquitos.h:179-278 | by attribute name, a value below the limit is read back; the id, the other three words and every attribute stored in them are kept; a second write overrides the first; writing back the value read changes nothing |
| General.VecInverse | src/Macros/MacrosGerais.h:16 | for a column below the column count, VEC(i, j, nc) is non-negative and its row and column recover i and j |
| General.VecOfRowCol | src/Macros/MacrosGerais.h:16 | every index is VEC of its own row and column |
| General.VecInjective | src/Macros/MacrosGerais.h:16 | VEC is injective on in-range columns |
| General.DivModUnique | src/Macros/MacrosGerais.h:16 | an index nc*q + r with r < nc has quotient q and remainder r |
| General.MulLess | src/Macros/MacrosGerais.h:16 | rows below b occupy indices below nc*b: row blocks do not overlap |
| General.MulStep | src/Macros/MacrosGerais.h:16 | a later row block starts after the end of an earlier one |
| General.ColumnCounts | src/Macros/MacrosGerais.h:11-13 | N_COLS_H, N_COLS_MD and N_COLS_MW are the products of the counts of sexes, age groups or phases, states and serotype columns |
| General.EnumerationsMatchCounts | src/Macros/MacrosGerais.h:26-81 | each enumeration of codes (dengue states, sexes, serotypes, age groups, movements, phases) is duplicate-free and has as many members as its N_ constant |
| General.HumanCodesFitFields | src/Macros/MacrosGerais.h:26-68 | every human state, sex, serotype, age group and movement code fits the bit width of the attribute that stores it |
| General.MosquitoCodesFitFields | src/Macros/MacrosGerais.h:26-96 | every mosquito state, sex, serotype, phase, offspring kind, mating, influence, life and feeding code fits the bit width of its attribute |
| General.HumanStateRoundTrip | src/Macros/MacrosGerais.h:26-34 | storing any human dengue state code in SD and reading it back gives the code |
| General.MosquitoStateRoundTrip | src/Macros/MacrosGerais.h:26-34 | storing any mosquito dengue state code in SD and reading it back gives the code |
| General.PhaseRoundTrip | src/Macros/MacrosGerais.h:76-81 | storing any phase code in FS and reading it back gives the code |
| General.AgeGroupRoundTrip | src/Macros/MacrosGerais.h:55-61 | storing any age group code in FE and reading it back gives the code |
| Parameters.OffsetsFollowCounts | Fontes/Macros/MacrosParametros.h:24-37 | the first file's offset is 0 and every other offset DESL_ is the previous offset plus twice the previous file's count |
| Parameters.VectorSize | Fontes/Macros/MacrosParametros.h:37-38 | N_PAR is the end of the last slice and no slice ends past it |
| Parameters.FileOf | Fontes/Macros/MacrosParametros.h:24-38 | every slot of the vector lies in the slice of some file |
| Parameters.SliceInsideVector | Fontes/Macros/MacrosParametros.h:24-38 | every slot of a file's slice lies inside the vector |
| Parameters.SlicesDisjoint | Fontes/Macros/MacrosParametros.h:24-38 | no slot lies in the slices of two different files |
| Parameters.SliceIsFileOf | Fontes/Macros/MacrosParametros.h:24-38 | a slot in a file's slice is inside the vector and that file is the one FileOf finds |
| Parameters.SlicesCover | Fontes/Macros/MacrosParametros.h:24-38 | every slot below N_PAR belongs to a file's slice |
| Parameters.ParameterOf | Fontes/Macros/MacrosParametros.h:7-37 | every slot of a slice is the minimum or the maximum slot of exactly one numbered parameter of that file, between 1 and the file's count |
| Parameters.ParameterInSlice | Fontes/Macros/MacrosParametros.h:24-37 | a read of parameter k of a file touches only slots in that file's slice |
| Parameters.DistinctParametersDisjoint | Fontes/Macros/MacrosParametros.h:24-37 | reads of two different parameters of one file touch disjoint slots |
| Parameters.DistinctFilesDisjoint | Fontes/Macros/MacrosParametros.h:24-37 | reads of parameters of two different files touch disjoint slots |
| Parameters.ParameterOfRead | Fontes/Macros/MacrosParametros.h:24-37 | every slot a read of parameter k touches is attributed back to parameter k |
| Parameters.EntreFaixaInRange | Fontes/Macros/MacrosParametros.h:48 | for min < max and a draw in [0, 1), ENTRE_FAIXA lies in [min, max) |
| Parameters.WidthInRange | Fontes/Macros/MacrosParametros.h:48 | for a positive width d and a draw in [0, 1), ENTRE_FAIXA(min, min + d) lies in [min, min + d) |
| Parameters.EntreFaixaAtZero | Fontes/Macros/MacrosParametros.h:48 | a draw of 0 gives the minimum |
| Parameters.EntreFaixaDegenerate | Fontes/Macros/MacrosParametros.h:48 | equal bounds give that bound whatever the draw |
| Parameters.EntreFaixaMonotone | Fontes/Macros/MacrosParametros.h:48 | for min <= max, a larger draw never gives a smaller value |
| Parameters.WidthMonotone | Fontes/Macros/MacrosParametros.h:48 | for a non-negative width, a larger draw never gives a smaller value |
| Parameters.Trunc | Fontes/Macros/MacrosParametros.h:48 | the C cast to int truncates toward zero: the result is within 1 of x, on the side of zero |
| Parameters.ParameterWithinVector | Fontes/Macros/MacrosParametros.h:24-38 | every read of a numbered parameter is within the 758-slot vector |
| Parameters.ResolvedInRange | Fontes/Macros/MacrosParametros.h:48 | a double macro over a pair with min < max yields a value in [min, max) |
| Parameters.ResolvedIntInRange | Fontes/Macros/MacrosParametros.h:48 | an int macro over a non-negative pair yields the truncated draw, between the floor of the minimum and the maximum |
| Parameters.MaxUint32IsLargest | Fontes/Macros/MacrosParametros.h:52 | MAX_UINT32 is 2^32 - 1 and no 32-bit word exceeds it |
| ParamsSim0.ReadsItsParameter | Fontes/Macros/0_SIM.h:6-23 | each SIM macro reads the minimum slot of the parameter SIMk the header comment names |
| ParamsSim0.ReadsInsideSlice | Fontes/Macros/0_SIM.h:16-23 | each SIM macro reads one even slot inside the 0-SIM slice, below DESL_0_INI_H |
| ParamsSim0.ReadsDisjoint | Fontes/Macros/0_SIM.h:16-23 | two different SIM macros read different slots |
| ParamsIniH0.ReadsItsParameter | src/Macros/0_INI_H.h:6-49 | each human initialisation macro reads the pair of the parameter INIk the comment names, and SOROTIPO_PREDOMINANTE its minimum only |
| ParamsIniH0.ConcreteSlots | src/Macros/0_INI_H.h:21-46 | the macros read slots 392-393, 394-395 (both asymptomatic forms), 396, and 398-399 |
| ParamsIniH0.ReadsInsideSlice | src/Macros/0_INI_H.h:21-46 | every slot read lies in the 0-INI human slice |
| ParamsIniH0.NumberInjective | src/Macros/0_INI_H.h:6-19 | two macros with the same parameter number are forms of the same macro |
| ParamsIniH0.ReadsDisjoint | src/Macros/0_INI_H.h:21-46 | macros of different parameters read disjoint slots |
| ParamsIniH0.VariantAgrees | src/Macros/0_INI_H.h:27-37 | the per-argument asymptomatic form reads the same pair with the same cast as the plain form |
| ParamsIniH0.CoveredSlots | src/Macros/0_INI_H.h:48-49 | N_PAR_0_INI_H is twice the number of distinct parameters the macros read |
| ParamsMovH1.ReadsItsParameter | src/Macros/1_MOV_H.h:6-24 | each human movement macro reads the pair of the parameter MOVk the comment names |
| ParamsMovH1.MobilitySlots | src/Macros/1_MOV_H.h:14-18 | the mobility rate of age group ie reads slots 400 + 2ie and 401 + 2ie, within 400..411 |
| ParamsMovH1.MigrationSlots | src/Macros/1_MOV_H.h:14-24 | the migration share reads slots 412-413, disjoint from every mobility rate |
| ParamsMovH1.ReadsInsideSlice | src/Macros/1_MOV_H.h:14-24 | every slot read lies in the 1-MOV human slice |
| ParamsMovH1.NumberInjective | src/Macros/1_MOV_H.h:6-12 | two macros within the documented arguments with the same parameter number are the same macro |
| ParamsMovH1.ReadsDisjoint | src/Macros/1_MOV_H.h:14-24 | different macros read disjoint slots |
| ParamsConH2.ReadsItsParameter | src/Macros/2_CON_H.h:6-92 | each human contact macro reads the pair of the parameter CONk the comment names |
| ParamsConH2.AgeGroupBlocks | src/Macros/2_CON_H.h:40-57 | the susceptible infection rates by age group read within 418..429, the recovered ones within 430..441, and the two never share a slot |
| ParamsConH2.ReadsInsideSlice | src/Macros/2_CON_H.h:22-92 | every slot read lies in the 2-CON human slice, 414..453 |
| ParamsConH2.NumberInjective | src/Macros/2_CON_H.h:6-20 | two macros with the same parameter number are forms of the same macro |
| ParamsConH2.ReadsDisjoint | src/Macros/2_CON_H.h:22-92 | macros of different parameters read disjoint slots |
| ParamsConH2.VariantsAgree | src/Macros/2_CON_H.h:22-51 | each per-argument form reads the pair of its plain macro with the same cast and number |
| ParamsTraH3.ReadsItsParameter | Fontes/Macros/3_TRA_H.h:6-72 | each human transition macro reads the pair of the parameter TRAk the comment names |
| ParamsTraH3.Blocks | Fontes/Macros/3_TRA_H.h:19-72 | the exposed, infected, haemorrhagic and recovered periods, the haemorrhagic evolution rates and the death and vaccine rates start at their documented offsets within the slice |
| ParamsTraH3.ReadsInsideSlice | Fontes/Macros/3_TRA_H.h:19-72 | every slot read lies in the 3-TRA human slice, 454..513 |
| ParamsTraH3.NumberInjective | Fontes/Macros/3_TRA_H.h:6-17 | two macros with the same parameter number are forms of the same macro |
| ParamsTraH3.ReadsDisjoint | Fontes/Macros/3_TRA_H.h:19-72 | macros of different parameters read disjoint slots |
| ParamsTraH3.VariantsAgree | Fontes/Macros/3_TRA_H.h:25-54 | each per-argument form reads the pair of its plain macro with the same cast and number |
| ParamsConH4.ReadsItsParameter | Fontes/Macros/4_CON_H.h:6-23 | both natural death macros read parameter CON001, slots 514-515, which are exactly the 4-CON human slice |
| ParamsConH4.RateInRange | Fontes/Macros/4_CON_H.h:13-23 | for min < max and a draw in [0, 1), the natural death rate lies in [min, max) |
| ParamsConH4.VariantAgrees | Fontes/Macros/4_CON_H.h:13-23 | the per-argument form yields the same value as the plain form for the same draw |
| ParamsInsH5.ReadsItsParameter | Fontes/Macros/5_INS_H.h:6-50 | each human insertion macro reads the minimum slot of the parameter INSk the comment names |
| ParamsInsH5.ConcreteSlots | Fontes/Macros/5_INS_H.h:22-50 | the entry cycle of group g reads slot 516 + 4g and its quantity slot 518 + 4g |
| ParamsInsH5.ReadsInsideSlice | Fontes/Macros/5_INS_H.h:22-50 | each insertion macro reads one even slot inside 516..535 |
| ParamsInsH5.ReadsDisjoint | Fontes/Macros/5_INS_H.h:22-50 | different insertion macros read different slots |
| ParamsIniM0.ReadsItsParameter | Fontes/Macros/0_INI_M.h:6-35 | each mosquito initialisation macro reads its parameter INIk: the int quantities its minimum, the distribution probability its pair |
| ParamsIniM0.ConcreteSlots | Fontes/Macros/0_INI_M.h:16-35 | the healthy, Wolbachia and dengue quantities read slots 536 + 6s + 2fs, 548 + 6s + 2fs and 560 + 2(st - 1); the probability reads 568-569 |
| ParamsIniM0.HealthyInjective | Fontes/Macros/0_INI_M.h:16-17 | two healthy quantities for documented sex and phase read the same slot only if they have the same arguments |
| ParamsIniM0.ReadsInsideSlice | Fontes/Macros/0_INI_M.h:16-35 | every slot read lies in the 0-INI mosquito slice, 536..569 |
| ParamsIniM0.NumberInjective | Fontes/Macros/0_INI_M.h:6-14 | two macros with the same parameter number are forms of the same macro |
| ParamsIniM0.ReadsDisjoint | Fontes/Macros/0_INI_M.h:16-35 | macros of different parameters read disjoint slots |
| ParamsMovM1.ReadsItsParameter | Fontes/Macros/1_MOV_M.h:6-88 | each mosquito movement macro reads the pair of the parameter MOVk the comment names |
| ParamsMovM1.MobilitySlots | Fontes/Macros/1_MOV_M.h:23-34 | the day mobility rate of sex s reads 570 + 2s and 571 + 2s, the night rate 574 + 2s and 575 + 2s, and no day rate shares a slot with a night rate |
| ParamsMovM1.ReadsInsideSlice | Fontes/Macros/1_MOV_M.h:23-88 | every slot read lies in the 1-MOV mosquito slice, 570..595 |
| ParamsMovM1.NumberInjective | Fontes/Macros/1_MOV_M.h:6-21 | two macros within the documented arguments with the same parameter number are the same macro |
| ParamsMovM1.ReadsDisjoint | Fontes/Macros/1_MOV_M.h:23-88 | different macros read disjoint slots |
| ParamsConM2.ReadsItsParameter | Fontes/Macros/2_CON_M.h:6-95 | each mosquito contact macro reads the pair 596 + 2(k - 1), 597 + 2(k - 1) of the parameter CONk the comment names |
| ParamsConM2.ReadsInsideSlice | Fontes/Macros/2_CON_M.h:24-95 | every slot read lies in the 2-CON mosquito slice, and the last macro ends at its last slot |
| ParamsConM2.ReadsDisjoint | Fontes/Macros/2_CON_M.h:24-95 | different macros read disjoint slots |
| ParamsTraM3.ReadsItsParameter | Fontes/Macros/3_TRA_M.h:6-221 | each mosquito transition macro reads its parameter TRAk: the pair from its minimum, or (the age maxima) its maximum alone |
| ParamsTraM3.ConcreteOffsets | Fontes/Macros/3_TRA_M.h:78-213 | CS_OVOS reads offset 22 as TRA012, the latency cycles offset 54 as TRA028 and the dengue age maximum offset 56 as TRA029 |
| ParamsTraM3.AgeBlocks | Fontes/Macros/3_TRA_M.h:33-66 | the wingless, active and decadent ages read within 620..625, 626..633 and 634..641 |
| ParamsTraM3.MaximaReadRangeMax | Fontes/Macros/3_TRA_M.h:69-76 | each IDADE_MAX macro reads exactly the maximum slot of the pair its IDADE macro draws from |
| ParamsTraM3.SurvivalIsNamed | Fontes/Macros/3_TRA_M.h:216-221 | TAXA_SOBREVIVENCIA(fs, s, sw) reads, converts and numbers exactly like the named CS/CI/BS/BI macro of that phase, sex and Wolbachia flag |
| ParamsTraM3.SurvivalExample | Fontes/Macros/3_TRA_M.h:120-124 | TAXA_SOBREVIVENCIA(LARVA, 1, 0) reads the BS_LARVAS pair |
| ParamsTraM3.ReadsInsideSlice | Fontes/Macros/3_TRA_M.h:33-221 | every slot read lies in the 3-TRA mosquito slice, 620..677 |
| ParamsTraM3.OwnerByNumber | Fontes/Macros/3_TRA_M.h:6-31 | the parameter number of a macro within its documented arguments determines its plain macro |
| ParamsTraM3.SurvivalByNumber | Fontes/Macros/3_TRA_M.h:78-195 | parameter TRA(12 + 4fs + 2s + sw) is the named survival macro of phase fs, sex s and Wolbachia flag sw |
| ParamsTraM3.NumberInjective | Fontes/Macros/3_TRA_M.h:6-31 | two macros with the same parameter number are forms of the same macro |
| ParamsTraM3.ReadsDisjoint | Fontes/Macros/3_TRA_M.h:33-221 | macros of different parameters read disjoint slots |
| ParamsTraM3.VariantsAgree | Fontes/Macros/3_TRA_M.h:39-207 | every per-argument form reads the pair of its plain macro |
| ParamsConM4.AsWrittenShiftsByTwo | src/Macros/4_CON_M.h:67-71 | as written, egg control level n reads the pair meant for level n + 2, that is parameter CON(27 + n) |
| ParamsConM4.AsWrittenReadsGenerationParameters | src/Macros/4_CON_M.h:67-71 | as written, level 3 reads slots 736-737, outside its file and equal to the first generation parameter, and level 4 reads the gestation cycles |
| ParamsConM4.AsWrittenInsideSliceIff | src/Macros/4_CON_M.h:67-71 | as written, a level reads inside the file's slice if and only if it is at most 2 |
| ParamsConM4.AsWrittenOverlapsLevelFour | src/Macros/4_CON_M.h:67-71 | as written, level 2 reads the same slots as the corrected level 4 |
| ParamsConM4.ReadsItsParameter | src/Macros/4_CON_M.h:6-71 | with the corrected egg control base, each mosquito control macro reads parameter CONk the comment names, at 678 + 2(k - 1) |
| ParamsConM4.DecayReadsParameter24 | src/Macros/4_CON_M.h:61-65 | the chemical decay macro reads the pair of parameter CON024, the parameter the header comment names PROB_EFICACIA_LARVICIDA |
| ParamsConM4.ReadsInsideSlice | src/Macros/4_CON_M.h:22-71 | corrected, every slot read lies in the 4-CON mosquito slice, and level 4 ends at its last slot |
| ParamsConM4.EliminationSlots | src/Macros/4_CON_M.h:25-29 | each natural selection elimination rate starts within 680..710, and two of them share a pair only with the same phase, sex and flag |
| ParamsConM4.EliminationCovers | src/Macros/4_CON_M.h:25-29 | every slot 680..711 is read by the elimination rate of the phase, sex and flag it encodes |
| ParamsConM4.NumberInjective | src/Macros/4_CON_M.h:6-20 | two macros with the same parameter number are forms of the same macro |
| ParamsConM4.ReadsDisjoint | src/Macros/4_CON_M.h:22-71 | corrected, macros of different parameters read disjoint slots |
| ParamsConM4.VariantAgrees | src/Macros/4_CON_M.h:25-35 | the per-argument elimination form reads the pair of the plain form with the same cast |
| ParamsGerM5.ReadsItsParameter | src/Macros/5_GER_M.h:6-118 | each generation macro reads its parameter GERk: the pair from 736 + 2(k - 1), or (the maxima) its maximum alone |
| ParamsGerM5.MaximaReadRangeMax | src/Macros/5_GER_M.h:47-93 | AS21_MAX and AI21_MAX read the maximum slots 741 and 749 of the AS21 and AI21 pairs |
| ParamsGerM5.ReadsInsideSlice | src/Macros/5_GER_M.h:23-118 | every slot read lies in the 5-GER slice, and the last macro ends at the last slot of the vector |
| ParamsGerM5.NumberInjective | src/Macros/5_GER_M.h:6-21 | two macros with the same parameter number are forms of the same macro |
| ParamsGerM5.ReadsDisjoint | src/Macros/5_GER_M.h:23-118 | macros of different parameters read disjoint slots |
| ParamsGerM5.VariantsAgree | src/Macros/5_GER_M.h:29-72 | each per-argument form reads the pair of its plain macro with the same cast |
| AgentHuman.CodeInjective | include/simulator/agent/human.hpp:11-16 | different human states have different character codes |
| AgentHuman.EqualsIgnoresMutableFields | src/simulator/agent/human.cpp:5-7 | two humans are equal exactly when they differ at most in the mutable state, position and counter |
| AgentHuman.EqualsIsEquivalence | src/simulator/agent/human.cpp:5-7 | equality is reflexive, symmetric and transitive |
| AgentHuman.EqualsAgreesWithHash | src/simulator/agent/human.cpp:5-13 | equal humans have equal hashes |
| AgentHuman.MutationKeepsIdentity | include/simulator/agent/human.hpp:18-21 | changing the mutable fields keeps a human equal to itself and keeps its hash, so it stays at its place in a hash set |
| AgentMosquito.CodeInjective | include/simulator/agent/mosquito.hpp:8-12 | different mosquito states have different character codes |
| AgentMosquito.EqualsIgnoresMutableFields | src/simulator/agent/mosquito.cpp:4-6 | two mosquitos are equal exactly when they differ at most in state, position and counter |
| AgentMosquito.EqualsIsEquivalence | src/simulator/agent/mosquito.cpp:4-6 | equality is reflexive, symmetric and transitive |
| AgentMosquito.EqualsAgreesWithHash | src/simulator/agent/mosquito.cpp:4-12 | equal mosquitos have equal hashes |
| AgentMosquito.HashDependsOnIdOnly | src/simulator/agent/mosquito.cpp:9-12 | the hash is the id hash and depends on nothing else |
| AgentVariant.HashOfAlternative | src/simulator/agent.cpp:7-12 | the hash of the variant is the hash of the alternative it holds |
| AgentVariant.SameIdSameHash | src/simulator/agent.cpp:7-12 | a human and a mosquito with the same id hash alike as agents |
| AgentVariant.HashDependsOnIdOnly | src/simulator/agent.cpp:7-12 | two agents with the same id have the same hash, the id hash |
| SimulatorHuman.AgreesWithAgent | src/simulator/agents/human.cpp:4-12 | the simulator's human compares and hashes exactly like the agent human with any counter |
| SimulatorHuman.EqualsIgnoresMutableFields | src/simulator/agents/human.cpp:4-6 | two humans are equal exactly when they differ at most in state and position |
| SimulatorHuman.EqualsIsEquivalence | src/simulator/agents/human.cpp:4-6 | equality is reflexive, symmetric and transitive |
| SimulatorHuman.EqualsAgreesWithHash | src/simulator/agents/human.cpp:4-12 | equal humans have equal hashes, the id hash |
| SimulatorMosquito.AgreesWithAgent | src/simulator/mosquito.cpp:4-12 | the simulator's mosquito compares and hashes exactly like the agent mosquito |
| SimulatorMosquito.EqualsIgnoresMutableFields | src/simulator/mosquito.cpp:4-6 | two mosquitos are equal exactly when they differ at most in state, position and counter |
| SimulatorMosquito.EqualsIsEquivalence | src/simulator/mosquito.cpp:4-6 | equality is reflexive, symmetric and transitive |
| SimulatorMosquito.EqualsAgreesWithHash | src/simulator/mosquito.cpp:4-12 | equal mosquitos have equal hashes, the id hash |
| GraphEnvironment.DistinctCardinality | src/simulator/environment.cpp:26-33 | a duplicate-free id list has as many distinct elements as entries |
| GraphEnvironment.SizeIsOrderLength | src/simulator/environment.cpp:26-28 | the size is the number of points in iteration order |
| GraphEnvironment.NthPointId | src/simulator/environment.cpp:30-33 | the n-th point in iteration order is a stored point id |
| GraphEnvironment.NthPointIdInjective | src/simulator/environment.cpp:30-33 | different positions in iteration order give different ids |
| GraphEnvironment.NthPointIdCovers | src/simulator/environment.cpp:30-33 | every stored point is the n-th for some n below the size |
| GraphEnvironment.GetPoints | src/simulator/environment.cpp:35-38 | the returned map has exactly the ids of the iteration order as keys |
| GraphEnvironment.GetEdges | src/simulator/environment.cpp:40-43 | in a built environment the neighbour set of a point is non-empty, excludes the point, and holds stored points that link back |
| GraphEnvironment.ListedOf | src/simulator/environment.cpp:52-58 | the point map and the iteration order built from the features list every key exactly once |
| GraphEnvironment.FirstMatch | src/simulator/environment.cpp:67-76 | the match, if any, is a stored point near the position; no match means no stored point is near |
| GraphEnvironment.FirstMatchIsFirst | src/simulator/environment.cpp:67-76 | no point earlier in iteration order than the match is near the position |
| GraphEnvironment.SegmentJoins | src/simulator/environment.cpp:89-92 | a segment contributes the pairs (start, end) and (end, start) exactly when both ends matched distinct points |
| GraphEnvironment.LinePairsJoin | src/simulator/environment.cpp:63-93 | a pair is linked by a LineString exactly when one of its consecutive position pairs matches it |
| GraphEnvironment.LinePairsSymmetric | src/simulator/environment.cpp:63-93 | the pairs a LineString links are symmetric, never a loop, and between points already stored |
| GraphEnvironment.PointsGrow | src/simulator/environment.cpp:52-58 | later features never remove or move a point stored by earlier ones |
| GraphEnvironment.EdgePairsShape | src/simulator/environment.cpp:52-94 | all linked pairs are symmetric, loop-free and between stored points |
| GraphEnvironment.FirstPointWins | src/simulator/environment.cpp:54-58 | the first Point feature with an id fixes that id's coordinates |
| GraphEnvironment.NoEarlierPoint | src/simulator/environment.cpp:54-58 | an id no Point feature carries is not stored |
| GraphEnvironment.Link | src/simulator/environment.cpp:89-92 | inserting b into a's neighbour set adds exactly the link (a, b) and keeps every set non-empty |
| GraphEnvironment.FindPoint | src/simulator/environment.cpp:67-87 | the scan over the stored points returns the first match in iteration order |
| GraphEnvironment.AddLine | src/simulator/environment.cpp:59-94 | after a LineString the links are the old ones plus exactly the pairs its segments join |
| GraphEnvironment.FromGeoJson | src/simulator/environment.cpp:46-98 | the result stores the points of the Point features (first id wins), links exactly the pairs the LineStrings join, and is a valid environment |
| GraphSimulation.InsertAllFresh | src/simulator/simulation.cpp:40-43 | inserting into a set agents whose ids are new and pairwise distinct appends them in order |
| GraphSimulation.DrawnPointIsNth | src/simulator/simulation.cpp:31-36 | the position draw yields the n-th point id for the drawn index, a stored point |
| GraphSimulation.HumanCohortShape | src/simulator/simulation.cpp:38-58 | the k-th inserted human has id k, the state of its block and the k-th drawn position |
| GraphSimulation.MosquitoCohortShape | src/simulator/simulation.cpp:60-75 | the k-th inserted mosquito has id k, the state of its block, counter 0 and the draw after all humans' |
| GraphSimulation.HumanCohortCounts | src/simulator/simulation.cpp:38-58 | the number of humans of a state in a cohort prefix is the overlap of the prefix with that state's block |
| GraphSimulation.MosquitoCohortCounts | src/simulator/simulation.cpp:60-75 | the number of mosquitos of a state in a cohort prefix is the overlap of the prefix with that state's block |
| GraphSimulation.InsertedCounts | src/simulator/simulation.cpp:38-75 | after insertion there are exactly as many susceptible, exposed, infected and recovered humans, and susceptible, infected and recovered mosquitos, as the parameters ask for |
| GraphSimulation.NthSmallest | src/simulator/simulation.cpp:85 | the n-th element of an ordered set is in the set |
| GraphSimulation.Least | src/simulator/simulation.cpp:85 | the first element of an ordered set is its minimum |
| GraphSimulation.Minimum | src/simulator/simulation.cpp:85 | a non-empty set has a least element |
| GraphSimulation.NthSmallestIncreasing | src/simulator/simulation.cpp:85 | advancing an ordered set's iterator gives strictly increasing elements |
| GraphSimulation.Step | src/simulator/simulation.cpp:81-85 | moving by a drawn index into a point's neighbour set lands on a neighbour |
| GraphSimulation.MovementShape | src/simulator/simulation.cpp:78-95 | a movement keeps every agent's id, state (and mosquito counter) and moves each to a neighbour of its point |
| GraphSimulation.MovementOnGraph | src/simulator/simulation.cpp:78-95 | after a movement every agent still stands on a point with neighbours |
| GraphSimulation.Round | src/simulator/simulation.cpp:16-20 | a round of movement, contact and transition keeps every agent on the graph |
| GraphSimulation.Cycles | src/simulator/simulation.cpp:16-20 | any number of rounds keeps every agent on the graph |
| GraphSimulation.CyclesKeepIdentity | src/simulator/simulation.cpp:16-20 | any number of rounds keeps the number, order, ids and states of the agents |
| GraphSimulation.HumanStarts | src/simulator/simulation.cpp:38-58 | the four human blocks start at 0, S, S + E and S + E + I and end at the human count |
| GraphSimulation.MosquitoStarts | src/simulator/simulation.cpp:60-75 | the three mosquito blocks start at 0, S and S + I and end at the mosquito count |
| GraphSimulation.HumanBlockStates | src/simulator/simulation.cpp:38-58 | every human id within block b gets that block's state |
| GraphSimulation.MosquitoBlockStates | src/simulator/simulation.cpp:60-75 | every mosquito id within block b gets that block's state |
| GraphSimulation.InsertHumans | src/simulator/simulation.cpp:40-43 | one human insertion loop extends the inserted cohort by its count |
| GraphSimulation.InsertMosquitos | src/simulator/simulation.cpp:62-65 | one mosquito insertion loop extends the inserted cohort by its count |
| GraphSimulation.InsertHumanBlocks | src/simulator/simulation.cpp:38-58 | the four human loops insert the whole human cohort |
| GraphSimulation.InsertMosquitoBlocks | src/simulator/simulation.cpp:60-75 | the three mosquito loops insert the whole mosquito cohort |
| GraphSimulation.MoveAllHumans | src/simulator/simulation.cpp:79-86 | the human loop yields the movement function of the old humans |
| GraphSimulation.MoveAllMosquitos | src/simulator/simulation.cpp:88-95 | the mosquito loop yields the movement function of the old mosquitos |
| GraphSimulation.Simulation.constructor | src/simulator/simulation.cpp:8-10 | the simulation keeps its environment and parameters and starts with no agents |
| GraphSimulation.Simulation.Insertion | src/simulator/simulation.cpp:23-76 | insertion adds the human and the mosquito cohort, which on empty sets become exactly the cohorts |
| GraphSimulation.Simulation.Movement | src/simulator/simulation.cpp:78-96 | movement replaces the agents by their moved versions and nothing else |
| GraphSimulation.Simulation.Contact | src/simulator/simulation.cpp:98-105 | contact lists every stored point once, in iteration order, with its coordinates, and leaves the agents alone |
| GraphSimulation.Simulation.Transition | src/simulator/simulation.cpp:107 | transition changes nothing |
| GraphSimulation.Simulation.Run | src/simulator/simulation.cpp:12-21 | run is insertion followed by exactly `cycles` rounds, keeping every agent on the graph |
| GraphSimulation.InsertionOnGraph | src/simulator/simulation.cpp:31-75 | inserting cohorts at drawn points with neighbours keeps every agent on the graph |
| GraphSimulation.InsertedFresh | src/simulator/simulation.cpp:38-75 | the block-by-block insertion equals inserting the cohorts into the old sets, and the cohorts themselves when the sets were empty |
| GraphSimulation.HumansAfterInsertsCohort | src/simulator/simulation.cpp:38-58 | inserting the first n humans one at a time is inserting the cohort prefix |
| GraphSimulation.MosquitosAfterInsertsCohort | src/simulator/simulation.cpp:60-75 | inserting the first n mosquitos one at a time is inserting the cohort prefix |

## Left out

- Environment::print and the printing in `contact`: standard output is not modelled. `Simulation.Contact` returns the listing it would print.
- Which declarations of `simulator::Human` and `simulator::Mosquito` simulation.cpp compiles against is not settled by the source shown: it includes only `agents/agent.hpp`, which declares neither. `human.hpp` and `agents/human.hpp` both declare a `simulator::Human` (only the first with a counter); `mosquito.hpp` declares a `simulator::Mosquito` with a counter and `agents/mosquito.hpp` one without. The model takes the declarations whose operators the core defines, `agents/human.cpp` (no counter) and `mosquito.cpp` (with a counter). This changes nothing proved: the simulation gives the counter an initial value only and never reads it, and equality and the hash look at the id alone (`AgreesWithAgent`).
- JSON parsing in `from_geojson`: the model starts from features already decoded into Point, LineString and other features.
- Point matching: the squared distance compared with `distance_threshold` in doubles is the oracle `near`. Coordinates are reals, not IEEE doubles. `DIST` in MacrosGerais.h is left out for the same reason.
- `ENTRE_FAIXA` and the `(double)` macros are computed over reals, not IEEE doubles. The `(int)` casts truncate toward zero (`Parameters.Trunc`).
- Random numbers: `randPerc`, the `per` draws and `make_random_generator_in_range` are parameters. The draw `per` is a real; the position draw is `draw`; the edge draw is `pick(cycle, i, n)` for the i-th agent moved in a cycle and a set of n neighbours. The model requires only that each draw is in range.
- Hash-container iteration order. The unordered map of points is iterated in insertion order (the sequence `order`). The unordered sets of agents are iterated in insertion order too. The real order is implementation-defined.
- `std::hash<std::size_t>` is the parameter `hashId`, because its values are implementation-defined.
- `size_t` wrap-around, kept out by three preconditions:
  - `FromGeoJson` requires every LineString to have a position (`LinesNonEmpty`), so that `coordinates.size() - 1` cannot wrap;
  - `Simulation.Insertion` requires position draws below the number of points (`DrawsInRange`), which also rules out an empty environment;
  - `Simulation.Movement` requires every agent to stand on a point with an adjacency entry (`OnGraph`). A valid environment has no empty neighbour set, and edge draws are below the set size (`PicksInRange`). As written, an agent on a point without edges makes `edges.at` throw, or `edges.size() - 1` wrap.
- GraphSimulation.Simulation.Run: requires the drawn points to have adjacency entries when `cycles > 0`, because `movement` calls `edges.at` on them.
- `reserve` in `insertion` only affects capacity and is not modelled.
- The Value functions of the parameter modules (the number a macro yields for a given parameter vector and draw) carry no contract of their own. What they read is stated by the ReadOf lemmas, and their range by `Parameters.ResolvedInRange` and `ParamsConH4.RateInRange`.
- The parameters INI001 to INI192 of the human initialisation file have no access macro and are not modelled. The CUDA functors that read them directly are not part of this model.
- The CUDA/Thrust kernels, the functor and class headers, the loaders, the Monte Carlo driver, the output writers and the command-line programs are not part of this model.

## Findings

| source | as written | input that shows it | evidently intended | confidence | as-written member | corrected member |
|---|---|---|---|---|---|---|
| src/Macros/4_CON_M.h:67-71 | `TAXA_CONTROLE_OVOS_EM_FOCOS(nivel)` reads slots `DESL_4_CON_M + 52 + 2*nivel` and `+53` | `nivel = 3` reads slots 736 and 737. These are `DESL_5_GER_M`, the pair of GER001 (`INTERVALO_ENTRE_POSTURAS_FEMEA`), outside the 4-CON slice | levels 0 to 4 read CON025 to CON029, the pairs at `DESL_4_CON_M + 48 + 2*nivel` | not executed | ParamsConM4.AsWrittenReadsGenerationParameters | ParamsConM4.ReadsItsParameter |
