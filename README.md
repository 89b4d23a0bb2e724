# Burbujas: the game engine of a times-table bubble game

The Android app "Burbujas" is a timed arithmetic arcade game. Bubbles with
numbers on them rise through the play area. The player picks a times table
(2 to 13) and taps the bubbles whose numbers are multiples of it before they
escape through the top. Correct taps score points and build a streak. Wrong
taps and escaped multiples cost lives. A round lasts 60 seconds or until the
lives run out; then a callback receives the score, its star rating and the
list of missed multiples, and the app moves to the results screen.

This project models the engine behind that game, `GameViewModel`, and the
hand-off of a finished round to the results screen:

- `datos.dfy` (module `Datos`): the records `Burbuja` and `EstadoJuego` with
  their defaults. It also holds the stateless rules: the star rating, the
  number printed on a new bubble, the speed ramp `1.02 ^ t` and the height
  after one motion tick.
- `reglas.dfy` (module `Reglas`): the whole view-model state as a value
  `Juego`, and one function per step of the engine:
  - start a round;
  - one second of the timer;
  - spawn a bubble;
  - one 50 ms motion tick;
  - a tap;
  - the delayed removal after a wrong tap;
  - end of round;
  - teardown.

  The module also holds the invariant every step keeps, the effect of a
  motion tick against reference definitions, the exhaustion of the timer,
  and a proof over any sequence of events that the callback fires at most
  once per round.
- `motor.dfy` (module `Motor`): `GameViewModel` as a class. Its fields are
  the view model's own fields. Each method updates them in place and is
  proved to move the state exactly as the matching function of `Reglas`
  says. The motion tick is a loop over the bubble list, proved with loop
  invariants against the recursive definition.
- `traspaso.dfy` (module `Traspaso`): the route hand-off.
  - `joinToString(",")` of the missed multiples.
  - Reading them back with `split(",")`, `toIntOrNull` and `mapNotNull`, with
    the empty string giving the empty list. This pair is proved to be a
    round trip for every list of 32-bit integers.
  - Clamping the table argument with `maxOf(2, ...)`.
  - The `sorted().toSet()` list shown on the results screen.

Some parts of the engine are not values, so they become explicit state:
- The end-of-round callback and the sound effects become append-only logs
  (`resultados`, `sonidos`).
- The 500 ms delayed removals launched by wrong taps become a queue
  `pendientes`. Each entry holds the bubble id and the lives computed at tap
  time, which is what the launched coroutine captures.
- Random draws become parameters, constrained to the ranges `Random` gives
  (`Sorteo`).

Behaviours of the code worth knowing, each proved or stated in the model:
- The "incorrect" branch of the number generator (`r + tabla * k2` with `r`
  in `[1, tabla - 1]`, MainActivity.kt:247) never yields a multiple of the
  table. `NumeroGenerado` proves that the number's remainder is `r`, which is
  never 0.
- The delayed removal after a wrong tap (MainActivity.kt:320-326) does not
  check `juegoActivo`. It removes the bubble whatever the round, and then
  calls `terminarJuego`, which guards itself. So a pending removal whose
  captured lives are `<= 0` ends whatever round is active when it runs.
  `RetirarPendiente` states this outright.
- `tocarBurbuja` (MainActivity.kt:292-319) trusts the tapped snapshot's
  `esMultiplo` and looks nothing up. A tap on a bubble that has just escaped
  therefore still scores or costs a life. `Tocar` has no precondition on the
  bubble being present.
- When a motion tick ends the round, the callback receives the missed list
  as it stood at the escape that used up the last life
  (MainActivity.kt:271-282). Later escapes in the same tick are still
  appended to the state afterwards. `EfectoEscapes` states this, and
  `EntregaEnMedio` shows it on two escaping multiples.
- Neither the bubble counter nor the escaped-multiples counter is reset when
  a new round starts (MainActivity.kt:194-202). The life lost on every third
  escaped multiple is therefore counted from the view model's creation, not
  from the start of the round (`Iniciar`, `EfectoEscapes`).

## Model

| member | source | states |
|---|---|---|
| `Datos.Estrellas` | app/src/main/java/com/example/burbujasgame/MainActivity.kt:339-344 | 0 to 3 stars; 3 exactly from 200 points, at least 2 exactly from 100, at least 1 exactly from 50 |
| `Datos.EstrellasMonotonas` | app/src/main/java/com/example/burbujasgame/MainActivity.kt:339-344 | a higher score never earns fewer stars |
| `Datos.NumeroGenerado` | app/src/main/java/com/example/burbujasgame/MainActivity.kt:243-249 | the "correct" branch gives a multiple of the table in `[tabla, 10*tabla]`; the other branch gives a number in `(0, 11*tabla)` whose remainder is the drawn `r`, so never a multiple |
| `Datos.Factor` | app/src/main/java/com/example/burbujasgame/MainActivity.kt:264 | the speed multiplier `1.02 ^ t` is never below 1 |
| `Datos.Sube` | app/src/main/java/com/example/burbujasgame/MainActivity.kt:264-265 | `NuevaY`, the height after a motion tick: a bubble with positive speed is strictly higher after every tick |
| `Reglas.InvInicial` | app/src/main/java/com/example/burbujasgame/MainActivity.kt:169-188 | the freshly created view model satisfies the engine invariant |
| `Reglas.Quitar` | app/src/main/java/com/example/burbujasgame/MainActivity.kt:306 | `filter { it.id != id }` keeps exactly the bubbles with another id, and keeps ids increasing |
| `Reglas.MarcarError` | app/src/main/java/com/example/burbujasgame/MainActivity.kt:311-313 | the list keeps its length; only `mostrarError` changes, and it is set exactly on the bubbles with the tapped id |
| `Reglas.Terminar` | app/src/main/java/com/example/burbujasgame/MainActivity.kt:330-346 | ending is a no-op on an inactive round; otherwise it deactivates and calls the callback once with the score, its stars and the missed multiples, changing nothing else |
| `Reglas.Iniciar` | app/src/main/java/com/example/burbujasgame/MainActivity.kt:194-202 | ignored while a round is active; otherwise it activates, records the table and resets the round state to its defaults, leaving both counters and all logs as they were |
| `Reglas.PasoTimer` | app/src/main/java/com/example/burbujasgame/MainActivity.kt:207-216 | each second of an active round moves one second from remaining to elapsed; the round stays active iff time is left, and the callback fires in the same step exactly when time runs out |
| `Reglas.Generar` | app/src/main/java/com/example/burbujasgame/MainActivity.kt:242-260 | appends one bubble with the next id at height 1.1, with the drawn position and speed, whose multiple flag agrees with both the branch drawn and `numero % tabla == 0`; only the list and the counter change |
| `Reglas.Tocar` | app/src/main/java/com/example/burbujasgame/MainActivity.kt:292-327 | no-op on an inactive round. A multiple adds 10 points (20 from the fifth in a row), extends the streak, removes that id and plays "good". Anything else loses 5 points floored at 0, costs a life, resets the streak, flags the bubble, plays "bad" and queues its delayed removal with the new lives. Nothing else changes |
| `Reglas.RetirarPendiente` | app/src/main/java/com/example/burbujasgame/MainActivity.kt:320-326 | the oldest delayed removal takes that id out of the list and ends the active round iff its captured lives are `<= 0`, whether or not that round is the one it came from; the callback then gets the current score, its stars and the current missed list; nothing else changes |
| `Reglas.Limpiar` | app/src/main/java/com/example/burbujasgame/MainActivity.kt:348-354 | teardown deactivates without calling the callback, no delayed removal runs afterwards, and nothing else changes |
| `Reglas.Supervivientes` | app/src/main/java/com/example/burbujasgame/MainActivity.kt:263-267 | every bubble kept by a tick is still in the play area and is an input bubble at its new height; no more are kept than given |
| `Reglas.Perdidos` | app/src/main/java/com/example/burbujasgame/MainActivity.kt:269-273 | every value recorded as missed in a tick is the number of an input bubble that is a multiple |
| `Reglas.TickCompleto` | app/src/main/java/com/example/burbujasgame/MainActivity.kt:263-288 | every bubble still in the play area is kept at its new height, and every multiple that left it is recorded as missed |
| `Reglas.SupervivientesCrecientes` | app/src/main/java/com/example/burbujasgame/MainActivity.kt:263-289 | a motion tick keeps the bubbles in creation (id) order |
| `Reglas.Cadencia` | app/src/main/java/com/example/burbujasgame/MainActivity.kt:274-275 | helper for `EscaparEfecto`: one more escape crosses a multiple of 3 exactly when the new count is divisible by 3, so lives lost are a difference of `count / 3` |
| `Reglas.EscaparEfecto` | app/src/main/java/com/example/burbujasgame/MainActivity.kt:269-285 | one more escaped multiple extends the cumulative escape relation by its number |
| `Reglas.EscaparEntrega` | app/src/main/java/com/example/burbujasgame/MainActivity.kt:271-283 | one more escaped multiple keeps the delivery rule: if it is the first fatal one, the callback gets the missed list ending with it; otherwise an earlier delivery is kept |
| `Reglas.EscaparSola` | app/src/main/java/com/example/burbujasgame/MainActivity.kt:269-285 | `Escapar` on its own: an escaping multiple is one escape of its number under `EfectoEscapes` (recorded, counted, a "missing" sound, a life on every third, the round ended with the list so far if no life is left); any other bubble leaves the state unchanged |
| `Reglas.AvanceEfecto` | app/src/main/java/com/example/burbujasgame/MainActivity.kt:263-288 | `Avance`, the `mapNotNull` pass, keeps exactly `Supervivientes`. Against the state before, it has appended exactly `Perdidos` to the missed list, with one "missing" sound each. It has lost `count/3` difference lives and reset the streak iff one was lost. It has ended the round iff a penalty left no lives; the callback then got the missed list as of the first escape that did so |
| `Reglas.EntregaEnMedio` | app/src/main/java/com/example/burbujasgame/MainActivity.kt:269-289 | after two earlier escapes and with one life left, two multiples 10 and 20 escaping in one tick end the round at 10: the callback gets `[10]` and the state ends with `[10, 20]` |
| `Reglas.Actualizar` | app/src/main/java/com/example/burbujasgame/MainActivity.kt:262-290 | a whole motion tick replaces the list by exactly `Supervivientes` (the bubbles still in the play area, at their new heights), and changes the rest of the state as the escapes of exactly `Perdidos` dictate (`EfectoEscapes`) |
| `Reglas.InvTerminar` | app/src/main/java/com/example/burbujasgame/MainActivity.kt:330-346 | ending a round keeps the invariant, the recorded result carrying the stars of its score |
| `Reglas.InvIniciar` | app/src/main/java/com/example/burbujasgame/MainActivity.kt:194-202 | starting a round keeps the invariant |
| `Reglas.InvPasoTimer` | app/src/main/java/com/example/burbujasgame/MainActivity.kt:207-216 | a timer second keeps the invariant (remaining plus elapsed is 60, an active round has time left) |
| `Reglas.InvGenerar` | app/src/main/java/com/example/burbujasgame/MainActivity.kt:242-260 | a spawn keeps ids increasing and every bubble valid |
| `Reglas.InvActualizar` | app/src/main/java/com/example/burbujasgame/MainActivity.kt:262-290 | a motion tick keeps the invariant; in particular every missed value is a multiple of the table |
| `Reglas.InvTocar` | app/src/main/java/com/example/burbujasgame/MainActivity.kt:292-327 | a tap keeps the invariant; the score never goes negative |
| `Reglas.InvRetirar` | app/src/main/java/com/example/burbujasgame/MainActivity.kt:320-326 | a delayed removal keeps the invariant |
| `Reglas.InvLimpiar` | app/src/main/java/com/example/burbujasgame/MainActivity.kt:348-354 | teardown keeps the invariant |
| `Reglas.TimerAgota` | app/src/main/java/com/example/burbujasgame/MainActivity.kt:204-218 | from an active round with `n` seconds left, the timer alone keeps it active for `n - 1` seconds and ends it at the `n`-th with exactly one callback, clock at 0 and elapsed `+ n`, nothing else changed |
| `Reglas.InvPreservado` | app/src/main/java/com/example/burbujasgame/MainActivity.kt:179-354 | every event the engine can receive keeps the invariant |
| `Reglas.FueraDeRonda` | app/src/main/java/com/example/burbujasgame/MainActivity.kt:207-298 | `Aplicar` outside a round: the timer, spawn and game loops and taps change nothing (the guards at :209, :225, :237 and :298); only a start, a delayed removal or teardown act, and a start opens a round |
| `Reglas.PasoEntrega` | app/src/main/java/com/example/burbujasgame/MainActivity.kt:330-346 | a step calls the callback (once) exactly when it ends an active round other than by teardown, and never takes back an earlier call |
| `Reglas.UnResultadoPorRonda` | app/src/main/java/com/example/burbujasgame/MainActivity.kt:194-202 | over any run of events the invariant holds, earlier results stay, and callbacks plus the round still open never exceed the rounds started |
| `Motor.GameViewModel.constructor` | app/src/main/java/com/example/burbujasgame/MainActivity.kt:179-188 | a new view model holds the defaults and satisfies the invariant |
| `Motor.GameViewModel.IniciarJuego` | app/src/main/java/com/example/burbujasgame/MainActivity.kt:194-202 | updates the fields exactly as `Iniciar` and keeps the invariant |
| `Motor.GameViewModel.TerminarJuego` | app/src/main/java/com/example/burbujasgame/MainActivity.kt:330-346 | updates the fields exactly as `Terminar` |
| `Motor.GameViewModel.PasoTimer` | app/src/main/java/com/example/burbujasgame/MainActivity.kt:207-216 | one timer iteration updates the fields exactly as `Reglas.PasoTimer` and keeps the invariant |
| `Motor.GameViewModel.GenerarBurbuja` | app/src/main/java/com/example/burbujasgame/MainActivity.kt:242-260 | updates the fields exactly as `Generar` |
| `Motor.GameViewModel.PasoGeneracion` | app/src/main/java/com/example/burbujasgame/MainActivity.kt:223-228 | one spawn-loop iteration spawns only while active, as `Aplicar` on a spawn event, and keeps the invariant |
| `Motor.GameViewModel.ActualizarBurbujas` | app/src/main/java/com/example/burbujasgame/MainActivity.kt:262-290 | the loop over the bubble list leaves the fields exactly as `Actualizar` |
| `Motor.GameViewModel.PasoBucle` | app/src/main/java/com/example/burbujasgame/MainActivity.kt:235-238 | one game-loop iteration moves the bubbles only while active, and keeps the invariant |
| `Motor.GameViewModel.TocarBurbuja` | app/src/main/java/com/example/burbujasgame/MainActivity.kt:292-327 | updates the fields exactly as `Tocar` and keeps the invariant |
| `Motor.GameViewModel.RetirarDiferido` | app/src/main/java/com/example/burbujasgame/MainActivity.kt:320-326 | runs the oldest delayed removal exactly as `RetirarPendiente` and keeps the invariant |
| `Motor.GameViewModel.OnCleared` | app/src/main/java/com/example/burbujasgame/MainActivity.kt:348-354 | updates the fields exactly as `Limpiar` and keeps the invariant |
| `Traspaso.IntToString` | app/src/main/java/com/example/burbujasgame/MainActivity.kt:450 | `Int.toString()` is non-empty, has no comma, and starts with `-` exactly for negative values |
| `Traspaso.ToIntOrNull` | app/src/main/java/com/example/burbujasgame/MainActivity.kt:143 | any value read is within the 32-bit `Int` range |
| `Traspaso.IntRoundTrip` | app/src/main/java/com/example/burbujasgame/MainActivity.kt:143 | every `Int` is read back from its own text by `toIntOrNull`; that text is non-empty and has no comma |
| `Traspaso.Split` | app/src/main/java/com/example/burbujasgame/MainActivity.kt:143 | `split(",")` gives at least one piece, no piece contains a comma, and joining the pieces with commas gives the input back |
| `Traspaso.SplitUnir` | app/src/main/java/com/example/burbujasgame/MainActivity.kt:143 | splitting comma-free pieces joined with commas gives the pieces back |
| `Traspaso.MapNotNull` | app/src/main/java/com/example/burbujasgame/MainActivity.kt:143 | `mapNotNull { it.toIntOrNull() }` yields at most one value per piece, each an `Int` |
| `Traspaso.MapNotNullTextos` | app/src/main/java/com/example/burbujasgame/MainActivity.kt:143 | `mapNotNull { it.toIntOrNull() }` over the texts of 32-bit integers gives the integers back |
| `Traspaso.JoinToString` | app/src/main/java/com/example/burbujasgame/MainActivity.kt:450 | `joinToString(",")` of the missed multiples is empty exactly when the list is |
| `Traspaso.ParseMultiplesPerdidos` | app/src/main/java/com/example/burbujasgame/MainActivity.kt:139-144 | the empty argument gives the empty list; otherwise at most one value per comma-separated piece, each an `Int` |
| `Traspaso.JoinParseRoundTrip` | app/src/main/java/com/example/burbujasgame/MainActivity.kt:139-144 | the missed multiples joined with `","` in the route are read back by the results screen unchanged, the empty list included |
| `Traspaso.TablaResultados` | app/src/main/java/com/example/burbujasgame/MainActivity.kt:138 | the table on the results screen is at least 2; it is the argument when that is at least 2, and 2 when the argument is missing or at most 2 |
| `Traspaso.Ordenar` | app/src/main/java/com/example/burbujasgame/MainActivity.kt:768 | `sorted()` is ordered and a permutation of its input |
| `Traspaso.Distintos` | app/src/main/java/com/example/burbujasgame/MainActivity.kt:768 | `toSet()` holds exactly the input's values, strictly increasing when the input is sorted |
| `Traspaso.ListaPantalla` | app/src/main/java/com/example/burbujasgame/MainActivity.kt:768 | the results screen lists exactly the missed values, each once, in strictly increasing order |

## Left out

- Rendering, animation, navigation and the URL form of the route are not
  modelled. The route carries the missed multiples as the string that
  `JoinToString` builds; URL encoding is not modelled.
- Playing sounds (`SoundManager`) is not modelled. Sounds are only recorded
  as the `Good`, `Bad` and `Missing` events the engine requests.
- Coroutine scheduling is not modelled. Each iteration of the three loops,
  each tap and each delayed removal is an atomic step, and any interleaving
  of them is a sequence of `Evento`s. The delays (1 s, 2 s, 50 ms, 500 ms)
  and the cancelling of the three jobs are not modelled. After the round ends
  the loops do nothing, because every step is guarded by `juegoActivo`, which
  is the effect the cancelling has.
- `Random` is not modelled. The draws are parameters constrained to its
  ranges. The 80% bias towards multiples is not modelled.
- Floating point is not modelled. Positions, speeds and `1.02 ^ t` are exact
  reals. `tiempoTranscurrido`, a `Float` counting whole seconds, is a `nat`.
- 32-bit overflow of the score, the counters and `tabla * k` is not modelled.
  The integers are unbounded; with tables 2 to 13 and 60-second rounds no
  value comes near the `Int` range. The hand-off does model the `Int` range:
  `toIntOrNull` rejects out-of-range text.
- The bubble colour is a display constant and is not modelled.
- The `tabla` parameter of `terminarJuego` is never read there, and
  `tocarBurbuja` only passes its own `tabla` on to that call. The engine does
  not use it, so it is not modelled. The table in the route is the one that
  the game screen's callbacks capture (MainActivity.kt:450, :521).
- The delayed removals run oldest first. All of them wait the same 500 ms,
  so this is their launch order. The scheduler's actual ordering is not
  modelled.
- ToIntOrNull: only ASCII digits are accepted. Kotlin's `toIntOrNull` also
  accepts other Unicode decimal digits, which this model rejects. No text
  built by `joinToString` contains them.
- Quitar: states which bubbles remain, and their id order, but not that each
  keeps its exact position.
- Distintos: states its values, and their order when the input is sorted.
  It does not state the first-occurrence order of `toSet()` on unsorted
  input.
- Factor: states only that the multiplier is at least 1. Its exact value,
  `1.02 ^ t`, is the definition itself.
