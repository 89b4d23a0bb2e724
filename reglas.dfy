/** The game engine of `GameViewModel` as pure steps over one value `Juego`
 *  that holds every field the view model owns. Each coroutine loop body of
 *  the engine is one atomic step; the end-of-round callback and the sound
 *  calls are recorded in append-only logs. The class in module Motor is
 *  proved against these functions. */
module Reglas {
  import opened Datos

  /** A wrong-tap removal waiting for its 500 ms delay: the bubble id and the
   *  lives value computed at tap time. */
  datatype Pendiente = Pendiente(id: int, nuevasVidas: int)

  /** Everything the view model owns, plus what it has handed out:
   *  `resultados` are the calls of the end-of-round callback and `sonidos`
   *  the sound effects requested, in order. */
  datatype Juego = Juego(
    estado: EstadoJuego,
    contadorBurbujas: int,
    juegoActivo: bool,
    burbujasEscapadasCount: int,
    tablaSeleccionada: int,
    pendientes: seq<Pendiente>,
    resultados: seq<Resultado>,
    sonidos: seq<Sonido>)

  /** A freshly constructed view model. */
  const JUEGO_INICIAL := Juego(ESTADO_INICIAL, 0, false, 0, 2, [], [], [])

  // ---------------------------------------------------------------------
  // Invariant
  // ---------------------------------------------------------------------

  predicate IdsCrecientes(bs: seq<Burbuja>)
  {
    forall i, j :: 0 <= i < j < |bs| ==> bs[i].id < bs[j].id
  }

  /** A bubble as the spawner made it: an id already handed out, a positive
   *  speed, and the multiple flag agreeing with the table. */
  predicate BurbujaValida(b: Burbuja, tabla: int, contador: int)
    requires tabla != 0
  {
    0 <= b.id < contador && b.velocidad > 0.0 && b.esMultiplo == (b.numero % tabla == 0)
  }

  /** What holds in every state the engine can reach. */
  predicate Inv(g: Juego)
  {
    && g.tablaSeleccionada >= 2
    && g.contadorBurbujas >= 0
    && g.burbujasEscapadasCount >= 0
    && g.estado.puntaje >= 0
    && g.estado.racha >= 0
    && 0 <= g.estado.tiempoRestante
    && g.estado.tiempoRestante + g.estado.tiempoTranscurrido == DURACION
    && (g.juegoActivo ==> g.estado.tiempoRestante > 0)
    && IdsCrecientes(g.estado.burbujas)
    && (forall b :: b in g.estado.burbujas ==> BurbujaValida(b, g.tablaSeleccionada, g.contadorBurbujas))
    && (forall v :: v in g.estado.multiplesPerdidos ==> v % g.tablaSeleccionada == 0)
    && (forall r :: r in g.resultados ==> r.puntaje >= 0 && r.estrellas == Estrellas(r.puntaje))
  }

  lemma InvInicial()
    ensures Inv(JUEGO_INICIAL)
  {
  }

  // ---------------------------------------------------------------------
  // List helpers
  // ---------------------------------------------------------------------

  /** `burbujas.filter { it.id != id }`. */
  function Quitar(bs: seq<Burbuja>, id: int): (r: seq<Burbuja>)
    ensures forall b :: b in r <==> b in bs && b.id != id
    ensures IdsCrecientes(bs) ==> IdsCrecientes(r)
  {
    if bs == [] then []
    else (if bs[0].id == id then [] else [bs[0]]) + Quitar(bs[1..], id)
  }

  /** `burbujas.map { if (it.id == id) it.copy(mostrarError = true) else it }`. */
  function MarcarError(bs: seq<Burbuja>, id: int): (r: seq<Burbuja>)
    ensures |r| == |bs|
    ensures forall i :: 0 <= i < |bs| ==>
      r[i].(mostrarError := bs[i].mostrarError) == bs[i] &&
      r[i].mostrarError == (bs[i].mostrarError || bs[i].id == id)
  {
    seq(|bs|, i requires 0 <= i < |bs| => if bs[i].id == id then bs[i].(mostrarError := true) else bs[i])
  }

  // ---------------------------------------------------------------------
  // Steps
  // ---------------------------------------------------------------------

  /** `terminarJuego`: acts only on an active round; it deactivates and calls
   *  the callback once with the score, its stars and the missed multiples. */
  function Terminar(g: Juego): (h: Juego)
    ensures !h.juegoActivo
    ensures !g.juegoActivo ==> h == g
    ensures g.juegoActivo ==>
      h == g.(juegoActivo := false,
              resultados := g.resultados + [Resultado(g.estado.puntaje, Estrellas(g.estado.puntaje), g.estado.multiplesPerdidos)])
  {
    if !g.juegoActivo then g
    else
      var p := g.estado.puntaje;
      g.(juegoActivo := false, resultados := g.resultados + [Resultado(p, Estrellas(p), g.estado.multiplesPerdidos)])
  }

  /** `iniciarJuego`: ignored while a round is active; otherwise the state
   *  returns to its defaults. The bubble counter and the escape counter are
   *  NOT reset. */
  function Iniciar(g: Juego, tabla: int): (h: Juego)
    ensures g.juegoActivo ==> h == g
    ensures !g.juegoActivo ==>
      && h.juegoActivo && h.tablaSeleccionada == tabla && h.estado == ESTADO_INICIAL
      && h.contadorBurbujas == g.contadorBurbujas
      && h.burbujasEscapadasCount == g.burbujasEscapadasCount
      && h.resultados == g.resultados && h.pendientes == g.pendientes && h.sonidos == g.sonidos
  {
    if g.juegoActivo then g
    else g.(juegoActivo := true, tablaSeleccionada := tabla, estado := ESTADO_INICIAL)
  }

  /** One second of the timer loop: while active, one second moves from
   *  `tiempoRestante` to `tiempoTranscurrido`; when none is left the loop
   *  ends and, the round still being active, so does the round. */
  function PasoTimer(g: Juego): (h: Juego)
    ensures !g.juegoActivo ==> h == g
    ensures g.juegoActivo ==>
      && h.estado == g.estado.(tiempoRestante := g.estado.tiempoRestante - 1,
                               tiempoTranscurrido := g.estado.tiempoTranscurrido + 1)
      && h.juegoActivo == (g.estado.tiempoRestante > 1)
      && h.resultados == g.resultados +
           (if h.juegoActivo then []
            else [Resultado(g.estado.puntaje, Estrellas(g.estado.puntaje), g.estado.multiplesPerdidos)])
      && h.(estado := g.estado, juegoActivo := true, resultados := g.resultados) == g
  {
    if !g.juegoActivo then g
    else
      var e := g.estado.(tiempoRestante := g.estado.tiempoRestante - 1,
                         tiempoTranscurrido := g.estado.tiempoTranscurrido + 1);
      var h := g.(estado := e);
      if h.estado.tiempoRestante > 0 then h else Terminar(h)
  }

  /** The random draws of one spawn lie in the ranges `Random` gives. */
  predicate Sorteo(tabla: int, esCorrecto: bool, k: int, r: int, k2: int, x: real, velocidad: real)
  {
    && (esCorrecto ==> 1 <= k <= 10)
    && (!esCorrecto ==> 1 <= r < tabla && 0 <= k2 <= 10)
    && 0.1 <= x <= 0.9
    && 0.5 <= velocidad <= 1.0
  }

  /** `generarBurbuja`: one new bubble at the bottom, appended, with the
   *  next id. */
  function Generar(g: Juego, esCorrecto: bool, k: int, r: int, k2: int, x: real, velocidad: real): (h: Juego)
    requires g.tablaSeleccionada >= 2
    requires Sorteo(g.tablaSeleccionada, esCorrecto, k, r, k2, x, velocidad)
    ensures |h.estado.burbujas| == |g.estado.burbujas| + 1
    ensures h.estado.burbujas[..|g.estado.burbujas|] == g.estado.burbujas
    ensures var b := h.estado.burbujas[|g.estado.burbujas|];
      && b.id == g.contadorBurbujas
      && b.esMultiplo == esCorrecto
      && b.esMultiplo == (b.numero % g.tablaSeleccionada == 0)
      && b.x == x && b.y == 1.1 && b.velocidad == velocidad && !b.mostrarError
    ensures h.contadorBurbujas == g.contadorBurbujas + 1
    ensures h.estado.(burbujas := g.estado.burbujas) == g.estado
    ensures h.(estado := g.estado, contadorBurbujas := g.contadorBurbujas) == g
  {
    var tabla := g.tablaSeleccionada;
    var numero := NumeroGenerado(tabla, esCorrecto, k, r, k2);
    var b := Burbuja(g.contadorBurbujas, numero, x, 1.1, velocidad, numero % tabla == 0, false);
    g.(contadorBurbujas := g.contadorBurbujas + 1,
       estado := g.estado.(burbujas := g.estado.burbujas + [b]))
  }

  /** The effect of bubble `b` leaving through the top: a multiple is
   *  recorded as missed and counted, and every third such escape costs a
   *  life and the streak, ending the round when no life is left. */
  function Escapar(g: Juego, b: Burbuja): Juego
  {
    if !b.esMultiplo then g
    else
      var n := g.burbujasEscapadasCount + 1;
      var e := g.estado.(multiplesPerdidos := g.estado.multiplesPerdidos + [b.numero]);
      var h := g.(estado := e, burbujasEscapadasCount := n, sonidos := g.sonidos + [Missing]);
      if n % 3 == 0 then
        var nuevasVidas := h.estado.vidas - 1;
        var h' := h.(estado := h.estado.(vidas := nuevasVidas, racha := 0));
        if nuevasVidas <= 0 then Terminar(h') else h'
      else h
  }

  /** The `mapNotNull` pass of `actualizarBurbujas` over the bubbles `bs`,
   *  left to right: the state after the pass and the kept bubbles. */
  function Avance(g: Juego, bs: seq<Burbuja>, f: real): (Juego, seq<Burbuja>)
  {
    if bs == [] then (g, [])
    else
      var (h, kept) := Avance(g, bs[..|bs| - 1], f);
      var b := bs[|bs| - 1];
      if NuevaY(b, f) > 0.0 then (h, kept + [b.(y := NuevaY(b, f))])
      else (Escapar(h, b), kept)
  }

  /** `actualizarBurbujas`: one motion tick, after which the bubble list is
   *  replaced by the kept bubbles. */
  function Actualizar(g: Juego): (a: Juego)
    ensures var f := Factor(g.estado.tiempoTranscurrido);
      && a.estado.burbujas == Supervivientes(g.estado.burbujas, f)
      && EfectoEscapes(g, a.(estado := a.estado.(burbujas := g.estado.burbujas)), Perdidos(g.estado.burbujas, f))
  {
    AvanceEfecto(g, g.estado.burbujas, Factor(g.estado.tiempoTranscurrido));
    var (h, kept) := Avance(g, g.estado.burbujas, Factor(g.estado.tiempoTranscurrido));
    h.(estado := h.estado.(burbujas := kept))
  }

  /** `tocarBurbuja`: trusts the tapped bubble's own flag and does not look
   *  it up. A multiple scores 10 (20 from the fifth in a row on) and is
   *  removed; anything else costs 5 points (never below 0), a life and the
   *  streak, is flagged, and its removal is scheduled. */
  function Tocar(g: Juego, b: Burbuja): (h: Juego)
    ensures !g.juegoActivo ==> h == g
    ensures g.juegoActivo && b.esMultiplo ==>
      && h.estado.racha == g.estado.racha + 1
      && h.estado.puntaje == g.estado.puntaje + (if h.estado.racha >= 5 then 20 else 10)
      && h.estado.vidas == g.estado.vidas
      && (forall c :: c in h.estado.burbujas <==> c in g.estado.burbujas && c.id != b.id)
      && h.sonidos == g.sonidos + [Good] && h.pendientes == g.pendientes
    ensures g.juegoActivo && !b.esMultiplo ==>
      && h.estado.puntaje >= 0
      && (g.estado.puntaje >= 0 ==> h.estado.puntaje <= g.estado.puntaje)
      && h.estado.puntaje == (if g.estado.puntaje >= 5 then g.estado.puntaje - 5 else 0)
      && h.estado.vidas == g.estado.vidas - 1
      && h.estado.racha == 0
      && h.estado.burbujas == MarcarError(g.estado.burbujas, b.id)
      && h.sonidos == g.sonidos + [Bad]
      && h.pendientes == g.pendientes + [Pendiente(b.id, g.estado.vidas - 1)]
    ensures h.juegoActivo == g.juegoActivo && h.resultados == g.resultados
    ensures h.contadorBurbujas == g.contadorBurbujas && h.tablaSeleccionada == g.tablaSeleccionada
    ensures h.burbujasEscapadasCount == g.burbujasEscapadasCount
    ensures h.estado.multiplesPerdidos == g.estado.multiplesPerdidos
    ensures h.estado.tiempoRestante == g.estado.tiempoRestante
    ensures h.estado.tiempoTranscurrido == g.estado.tiempoTranscurrido
  {
    if !g.juegoActivo then g
    else if b.esMultiplo then
      var nuevaRacha := g.estado.racha + 1;
      var puntosExtra := if nuevaRacha >= 5 then 10 else 0;
      g.(sonidos := g.sonidos + [Good],
         estado := g.estado.(puntaje := g.estado.puntaje + 10 + puntosExtra,
                             racha := nuevaRacha,
                             burbujas := Quitar(g.estado.burbujas, b.id)))
    else
      var nuevasVidas := g.estado.vidas - 1;
      var p := g.estado.puntaje - 5;
      g.(sonidos := g.sonidos + [Bad],
         estado := g.estado.(puntaje := if p > 0 then p else 0,
                             vidas := nuevasVidas,
                             racha := 0,
                             burbujas := MarcarError(g.estado.burbujas, b.id)),
         pendientes := g.pendientes + [Pendiente(b.id, nuevasVidas)])
  }

  /** The delayed part of a wrong tap, 500 ms later: remove that bubble and
   *  end the round if the lives computed at tap time were used up. It does
   *  not look at whether the round it came from is still the active one. */
  function RetirarPendiente(g: Juego): (h: Juego)
    requires g.pendientes != []
    ensures h.pendientes == g.pendientes[1..]
    ensures forall c :: c in h.estado.burbujas <==> c in g.estado.burbujas && c.id != g.pendientes[0].id
    ensures h.juegoActivo == (g.juegoActivo && g.pendientes[0].nuevasVidas > 0)
    ensures h.resultados == g.resultados +
      (if g.juegoActivo && g.pendientes[0].nuevasVidas <= 0
       then [Resultado(g.estado.puntaje, Estrellas(g.estado.puntaje), g.estado.multiplesPerdidos)]
       else [])
    ensures h.estado.(burbujas := g.estado.burbujas) == g.estado
    ensures h.(estado := g.estado, pendientes := g.pendientes, juegoActivo := g.juegoActivo,
               resultados := g.resultados) == g
  {
    var p := g.pendientes[0];
    var h := g.(pendientes := g.pendientes[1..],
                estado := g.estado.(burbujas := Quitar(g.estado.burbujas, p.id)));
    if p.nuevasVidas <= 0 then Terminar(h) else h
  }

  /** `onCleared`: deactivates without calling the callback; clearing the
   *  view model also cancels its scope, so pending removals never run. */
  function Limpiar(g: Juego): (h: Juego)
    ensures !h.juegoActivo && h.pendientes == []
    ensures h.(juegoActivo := g.juegoActivo, pendientes := g.pendientes) == g
  {
    g.(juegoActivo := false, pendientes := [])
  }

  // ---------------------------------------------------------------------
  // The motion tick against reference definitions
  // ---------------------------------------------------------------------

  /** The bubbles a motion tick keeps, each moved to its new height. */
  function Supervivientes(bs: seq<Burbuja>, f: real): (r: seq<Burbuja>)
    ensures |r| <= |bs|
    ensures forall s :: s in r ==> s.y > 0.0 && exists b :: b in bs && s == b.(y := NuevaY(b, f))
  {
    if bs == [] then []
    else
      var b := bs[0];
      (if NuevaY(b, f) > 0.0 then [b.(y := NuevaY(b, f))] else []) + Supervivientes(bs[1..], f)
  }

  /** A motion tick only keeps ids it was given: a lower bound on them stays. */
  lemma {:induction false} SupervivientesCota(bs: seq<Burbuja>, f: real, m: int)
    requires forall b :: b in bs ==> m < b.id
    ensures forall s :: s in Supervivientes(bs, f) ==> m < s.id
    decreases |bs|
  {
    if bs != [] {
      assert forall b :: b in bs[1..] ==> b in bs;
      SupervivientesCota(bs[1..], f, m);
    }
  }

  lemma CrecientesCons(b: Burbuja, resto: seq<Burbuja>)
    requires IdsCrecientes(resto)
    requires forall s :: s in resto ==> b.id < s.id
    ensures IdsCrecientes([b] + resto)
  {
    var r := [b] + resto;
    forall i, j | 0 <= i < j < |r|
      ensures r[i].id < r[j].id
    {
      assert r[j] == resto[j - 1];
      if i > 0 {
        assert r[i] == resto[i - 1];
      }
    }
  }

  /** A motion tick keeps the bubbles in creation order. */
  lemma {:induction false} SupervivientesCrecientes(bs: seq<Burbuja>, f: real)
    requires IdsCrecientes(bs)
    ensures IdsCrecientes(Supervivientes(bs, f))
    decreases |bs|
  {
    if bs != [] {
      var b := bs[0];
      var resto := Supervivientes(bs[1..], f);
      assert IdsCrecientes(bs[1..]);
      SupervivientesCrecientes(bs[1..], f);
      forall c | c in bs[1..]
        ensures b.id < c.id
      {
        var j :| 0 <= j < |bs[1..]| && bs[1..][j] == c;
        assert bs[j + 1] == c;
      }
      SupervivientesCota(bs[1..], f, b.id);
      if NuevaY(b, f) > 0.0 {
        CrecientesCons(b.(y := NuevaY(b, f)), resto);
      } else {
        assert Supervivientes(bs, f) == resto;
      }
    }
  }

  /** The numbers of the multiples a motion tick lets escape, in list order. */
  function Perdidos(bs: seq<Burbuja>, f: real): (r: seq<int>)
    ensures forall v :: v in r ==> exists b :: b in bs && b.esMultiplo && v == b.numero
  {
    if bs == [] then []
    else
      var b := bs[0];
      (if NuevaY(b, f) <= 0.0 && b.esMultiplo then [b.numero] else []) + Perdidos(bs[1..], f)
  }

  /** Nothing is dropped silently: every bubble still in the play area is
   *  kept at its new height, and every multiple that left it is recorded. */
  lemma {:induction false} TickCompleto(bs: seq<Burbuja>, f: real)
    ensures forall b :: b in bs && NuevaY(b, f) > 0.0 ==> b.(y := NuevaY(b, f)) in Supervivientes(bs, f)
    ensures forall b :: b in bs && b.esMultiplo && NuevaY(b, f) <= 0.0 ==> b.numero in Perdidos(bs, f)
    decreases |bs|
  {
    if bs != [] {
      TickCompleto(bs[1..], f);
      forall b | b in bs && NuevaY(b, f) > 0.0
        ensures b.(y := NuevaY(b, f)) in Supervivientes(bs, f)
      {
        if b != bs[0] {
          assert b in bs[1..];
        }
      }
      forall b | b in bs && b.esMultiplo && NuevaY(b, f) <= 0.0
        ensures b.numero in Perdidos(bs, f)
      {
        if b != bs[0] {
          assert b in bs[1..];
        }
      }
    }
  }

  lemma {:induction false} SupervivientesConcat(a: seq<Burbuja>, b: seq<Burbuja>, f: real)
    ensures Supervivientes(a + b, f) == Supervivientes(a, f) + Supervivientes(b, f)
    decreases |a|
  {
    if a != [] {
      assert (a + b)[1..] == a[1..] + b;
      SupervivientesConcat(a[1..], b, f);
    } else {
      assert a + b == b;
    }
  }

  lemma {:induction false} PerdidosConcat(a: seq<Burbuja>, b: seq<Burbuja>, f: real)
    ensures Perdidos(a + b, f) == Perdidos(a, f) + Perdidos(b, f)
    decreases |a|
  {
    if a != [] {
      assert (a + b)[1..] == a[1..] + b;
      PerdidosConcat(a[1..], b, f);
    } else {
      assert a + b == b;
    }
  }

  /** Every third escaped multiple, counting from the view model's creation,
   *  is the one that costs a life. */
  lemma Cadencia(n: int)
    ensures (n + 1) / 3 == n / 3 + (if (n + 1) % 3 == 0 then 1 else 0)
  {
  }

  /** The `k`-th escaped multiple counted from `g` costs a life and leaves
   *  none: the count it reaches is divisible by 3, and the lives lost by
   *  then use up those `g` had. */
  predicate Fatal(g: Juego, k: int)
  {
    var n0 := g.burbujasEscapadasCount;
    (n0 + k) % 3 == 0 && g.estado.vidas - ((n0 + k) / 3 - n0 / 3) <= 0
  }

  /** Who gets the callback when escapes end the round: the first fatal
   *  escape ends it, with the missed list as it stood right after that
   *  escape; while the round is still on, no escape so far was fatal. */
  predicate EntregaEscapes(g: Juego, h: Juego, P: seq<int>)
  {
    && (g.juegoActivo && h.juegoActivo ==> forall j :: 1 <= j <= |P| ==> !Fatal(g, j))
    && (g.juegoActivo && !h.juegoActivo ==>
          |h.resultados| > |g.resultados| &&
          exists k :: 1 <= k <= |P| && Fatal(g, k) && (forall j :: 1 <= j < k ==> !Fatal(g, j))
            && h.resultados[|g.resultados|].multiplesPerdidos == g.estado.multiplesPerdidos + P[..k])
  }

  /** How the state `h` reached after the escapes of the multiples `P`
   *  (in order) relates to the state `g` before them. */
  predicate EfectoEscapes(g: Juego, h: Juego, P: seq<int>)
  {
    var n0 := g.burbujasEscapadasCount;
    var n1 := h.burbujasEscapadasCount;
    var penalizado := n1 / 3 != n0 / 3;
    && h.estado.multiplesPerdidos == g.estado.multiplesPerdidos + P
    && n1 == n0 + |P|
    && h.estado.vidas == g.estado.vidas - (n1 / 3 - n0 / 3)
    && h.estado.racha == (if penalizado then 0 else g.estado.racha)
    && h.juegoActivo == (g.juegoActivo && !(penalizado && h.estado.vidas <= 0))
    && h.sonidos == g.sonidos + seq(|P|, _ => Missing)
    && |h.resultados| == |g.resultados| + (if g.juegoActivo && !h.juegoActivo then 1 else 0)
    && h.resultados[..|g.resultados|] == g.resultados
    && (g.juegoActivo && !h.juegoActivo ==>
          var r := h.resultados[|g.resultados|];
          && r.puntaje == g.estado.puntaje
          && r.estrellas == Estrellas(g.estado.puntaje))
    && EntregaEscapes(g, h, P)
    && h.estado.(vidas := g.estado.vidas, racha := g.estado.racha,
                 multiplesPerdidos := g.estado.multiplesPerdidos) == g.estado
    && h.(estado := g.estado, juegoActivo := g.juegoActivo, burbujasEscapadasCount := n0,
          resultados := g.resultados, sonidos := g.sonidos) == g
  }

  /** The delivery part of one more escaped multiple. */
  lemma EscaparEntrega(g: Juego, h: Juego, P: seq<int>, b: Burbuja)
    requires EfectoEscapes(g, h, P) && b.esMultiplo
    ensures EntregaEscapes(g, Escapar(h, b), P + [b.numero])
  {
    var h', Q := Escapar(h, b), P + [b.numero];
    var n0, n := g.burbujasEscapadasCount, h.burbujasEscapadasCount + 1;
    Cadencia(h.burbujasEscapadasCount);
    if g.juegoActivo && !h.juegoActivo {
      assert h'.resultados == h.resultados && !h'.juegoActivo;
      var k :| 1 <= k <= |P| && Fatal(g, k) && (forall j :: 1 <= j < k ==> !Fatal(g, j))
               && h.resultados[|g.resultados|].multiplesPerdidos == g.estado.multiplesPerdidos + P[..k];
      assert Q[..k] == P[..k];
    } else if g.juegoActivo {
      assert n == n0 + |Q|;
      assert Fatal(g, |Q|) <==> n % 3 == 0 && h.estado.vidas - 1 <= 0;
      if h'.juegoActivo {
        forall j | 1 <= j <= |Q|
          ensures !Fatal(g, j)
        {
          if j <= |P| {
          }
        }
      } else {
        assert Fatal(g, |Q|);
        assert Q[..|Q|] == Q;
        assert h'.resultados[|g.resultados|].multiplesPerdidos == g.estado.multiplesPerdidos + Q;
      }
    }
  }

  /** One more escaped multiple extends the relation by its number. */
  lemma EscaparEfecto(g: Juego, h: Juego, P: seq<int>, b: Burbuja)
    requires EfectoEscapes(g, h, P) && b.esMultiplo
    ensures EfectoEscapes(g, Escapar(h, b), P + [b.numero])
  {
    var h' := Escapar(h, b);
    Cadencia(h.burbujasEscapadasCount);
    EscaparEntrega(g, h, P, b);
    assert g.sonidos + seq(|P|, _ => Missing) + [Missing] == g.sonidos + seq(|P| + 1, _ => Missing);
    assert h'.estado.multiplesPerdidos == h.estado.multiplesPerdidos + [b.numero];
    if g.juegoActivo && !h.juegoActivo {
      assert h'.resultados == h.resultados;
    }
  }

  /** No escape at all relates a state to itself. */
  lemma EfectoNulo(g: Juego)
    ensures EfectoEscapes(g, g, [])
  {
    assert g.sonidos + seq(0, _ => Missing) == g.sonidos;
    assert g.estado.multiplesPerdidos + [] == g.estado.multiplesPerdidos;
    assert g.resultados[..|g.resultados|] == g.resultados;
  }

  /** A single escaping bubble: a multiple is one escape of its number, any
   *  other bubble leaves the state as it was. */
  lemma EscaparSola(g: Juego, b: Burbuja)
    ensures EfectoEscapes(g, Escapar(g, b), if b.esMultiplo then [b.numero] else [])
  {
    EfectoNulo(g);
    if b.esMultiplo {
      EscaparEfecto(g, g, [], b);
      assert [] + [b.numero] == [b.numero];
    }
  }

  /** One motion pass over `bs`: the kept bubbles are the survivors, and the
   *  state changes as the escapes of `Perdidos(bs, f)` dictate. */
  lemma {:induction false} AvanceEfecto(g: Juego, bs: seq<Burbuja>, f: real)
    ensures Avance(g, bs, f).1 == Supervivientes(bs, f)
    ensures EfectoEscapes(g, Avance(g, bs, f).0, Perdidos(bs, f))
    decreases |bs|
  {
    if bs == [] {
      assert g.sonidos + seq(0, _ => Missing) == g.sonidos;
      assert g.estado.multiplesPerdidos + [] == g.estado.multiplesPerdidos;
    } else {
      var pre, b := bs[..|bs| - 1], bs[|bs| - 1];
      assert bs == pre + [b];
      AvanceEfecto(g, pre, f);
      SupervivientesConcat(pre, [b], f);
      PerdidosConcat(pre, [b], f);
      var h := Avance(g, pre, f).0;
      if NuevaY(b, f) <= 0.0 && b.esMultiplo {
        assert Perdidos([b], f) == [b.numero];
        EscaparEfecto(g, h, Perdidos(pre, f), b);
      } else {
        assert Perdidos([b], f) == [];
        assert Perdidos(pre, f) + [] == Perdidos(pre, f);
      }
    }
  }

  /** Two multiples, 10 and 20, leave in the same tick after two earlier
   *  escapes, with one life left: the first of them is the third escape
   *  and ends the round, so the callback gets `[10]`; the second is still
   *  recorded afterwards. */
  lemma EntregaEnMedio()
    ensures var b1 := Burbuja(0, 10, 0.5, 0.001, 0.5, true, false);
      var b2 := Burbuja(1, 20, 0.5, 0.001, 0.5, true, false);
      var g := JUEGO_INICIAL.(juegoActivo := true, contadorBurbujas := 2, burbujasEscapadasCount := 2,
                              tablaSeleccionada := 10,
                              estado := ESTADO_INICIAL.(vidas := 1, burbujas := [b1, b2]));
      var a := Actualizar(g);
      && !a.juegoActivo
      && a.resultados == [Resultado(0, 0, [10])]
      && a.estado.multiplesPerdidos == [10, 20]
  {
    var b1 := Burbuja(0, 10, 0.5, 0.001, 0.5, true, false);
    var b2 := Burbuja(1, 20, 0.5, 0.001, 0.5, true, false);
    var g := JUEGO_INICIAL.(juegoActivo := true, contadorBurbujas := 2, burbujasEscapadasCount := 2,
                            tablaSeleccionada := 10,
                            estado := ESTADO_INICIAL.(vidas := 1, burbujas := [b1, b2]));
    assert Factor(0) == 1.0;
    assert NuevaY(b1, 1.0) <= 0.0 && NuevaY(b2, 1.0) <= 0.0;
    assert [b1, b2][..1] == [b1];
    assert [b1][..0] == [];
    assert Avance(g, [], 1.0) == (g, []);
    assert Avance(g, [b1], 1.0) == (Escapar(g, b1), []);
    var h1 := Avance(g, [b1], 1.0);
    assert g.estado.vidas - 1 <= 0 && (g.burbujasEscapadasCount + 1) % 3 == 0;
    assert g.estado.multiplesPerdidos + [b1.numero] == [10];
    assert Estrellas(g.estado.puntaje) == 0;
    assert h1.0.resultados == [Resultado(0, 0, [10])];
  }

  // ---------------------------------------------------------------------
  // The invariant is kept by every step
  // ---------------------------------------------------------------------

  /** Ending a round keeps the invariant; only the part of it that does not
   *  depend on the round being active is needed. */
  lemma InvTerminar(g: Juego)
    requires Inv(g.(juegoActivo := false))
    ensures Inv(Terminar(g))
  {
    var h := Terminar(g);
    forall r | r in h.resultados
      ensures r.puntaje >= 0 && r.estrellas == Estrellas(r.puntaje)
    {
      if r !in g.resultados {
        assert r == h.resultados[|h.resultados| - 1];
      }
    }
  }

  lemma InvIniciar(g: Juego, tabla: int)
    requires Inv(g) && tabla >= 2
    ensures Inv(Iniciar(g, tabla))
  {
  }

  lemma InvPasoTimer(g: Juego)
    requires Inv(g)
    ensures Inv(PasoTimer(g))
  {
    if g.juegoActivo {
      var h := g.(estado := g.estado.(tiempoRestante := g.estado.tiempoRestante - 1,
                                     tiempoTranscurrido := g.estado.tiempoTranscurrido + 1));
      if h.estado.tiempoRestante <= 0 {
        InvTerminar(h);
      }
    }
  }

  lemma InvGenerar(g: Juego, esCorrecto: bool, k: int, r: int, k2: int, x: real, velocidad: real)
    requires Inv(g)
    requires Sorteo(g.tablaSeleccionada, esCorrecto, k, r, k2, x, velocidad)
    ensures Inv(Generar(g, esCorrecto, k, r, k2, x, velocidad))
  {
    var h := Generar(g, esCorrecto, k, r, k2, x, velocidad);
    var n := |g.estado.burbujas|;
    forall c | c in h.estado.burbujas
      ensures BurbujaValida(c, h.tablaSeleccionada, h.contadorBurbujas)
    {
      if c !in g.estado.burbujas {
        assert c == h.estado.burbujas[n];
      }
    }
    forall i, j | 0 <= i < j < |h.estado.burbujas|
      ensures h.estado.burbujas[i].id < h.estado.burbujas[j].id
    {
      if j == n {
        assert h.estado.burbujas[i] == g.estado.burbujas[i];
        assert g.estado.burbujas[i] in g.estado.burbujas;
      } else {
        assert h.estado.burbujas[i] == g.estado.burbujas[i];
        assert h.estado.burbujas[j] == g.estado.burbujas[j];
      }
    }
  }

  lemma SupervivientesValidas(bs: seq<Burbuja>, f: real, tabla: int, contador: int)
    requires tabla != 0
    requires forall b :: b in bs ==> BurbujaValida(b, tabla, contador)
    ensures forall c :: c in Supervivientes(bs, f) ==> BurbujaValida(c, tabla, contador)
  {
    forall c | c in Supervivientes(bs, f)
      ensures BurbujaValida(c, tabla, contador)
    {
      var b :| b in bs && c == b.(y := NuevaY(b, f));
      assert BurbujaValida(b, tabla, contador);
    }
  }

  lemma PerdidosValidos(g: Juego, h: Juego, f: real)
    requires Inv(g) && EfectoEscapes(g, h, Perdidos(g.estado.burbujas, f))
    ensures forall v :: v in h.estado.multiplesPerdidos ==> v % h.tablaSeleccionada == 0
  {
    var bs := g.estado.burbujas;
    forall v | v in h.estado.multiplesPerdidos
      ensures v % h.tablaSeleccionada == 0
    {
      if v !in g.estado.multiplesPerdidos {
        assert v in Perdidos(bs, f);
        var b :| b in bs && b.esMultiplo && v == b.numero;
        assert BurbujaValida(b, g.tablaSeleccionada, g.contadorBurbujas);
      }
    }
  }

  lemma ResultadosValidos(g: Juego, h: Juego, P: seq<int>)
    requires Inv(g) && EfectoEscapes(g, h, P)
    ensures forall r :: r in h.resultados ==> r.puntaje >= 0 && r.estrellas == Estrellas(r.puntaje)
  {
    forall r | r in h.resultados
      ensures r.puntaje >= 0 && r.estrellas == Estrellas(r.puntaje)
    {
      var i :| 0 <= i < |h.resultados| && h.resultados[i] == r;
      if i < |g.resultados| {
        assert r == g.resultados[i];
      }
    }
  }

  lemma InvActualizar(g: Juego)
    requires Inv(g)
    ensures Inv(Actualizar(g))
  {
    var f := Factor(g.estado.tiempoTranscurrido);
    var bs := g.estado.burbujas;
    AvanceEfecto(g, bs, f);
    var (h, kept) := Avance(g, bs, f);
    SupervivientesCrecientes(bs, f);
    SupervivientesValidas(bs, f, g.tablaSeleccionada, g.contadorBurbujas);
    PerdidosValidos(g, h, f);
    ResultadosValidos(g, h, Perdidos(bs, f));
  }

  lemma InvTocar(g: Juego, b: Burbuja)
    requires Inv(g)
    ensures Inv(Tocar(g, b))
  {
    var h := Tocar(g, b);
    if g.juegoActivo && !b.esMultiplo {
      var bs, ms := g.estado.burbujas, h.estado.burbujas;
      forall c | c in ms
        ensures BurbujaValida(c, h.tablaSeleccionada, h.contadorBurbujas)
      {
        var i :| 0 <= i < |ms| && ms[i] == c;
        assert ms[i].(mostrarError := bs[i].mostrarError) == bs[i];
        assert bs[i] in bs;
      }
      forall i, j | 0 <= i < j < |ms|
        ensures ms[i].id < ms[j].id
      {
        assert ms[i].(mostrarError := bs[i].mostrarError) == bs[i];
        assert ms[j].(mostrarError := bs[j].mostrarError) == bs[j];
      }
    }
  }

  lemma InvRetirar(g: Juego)
    requires Inv(g) && g.pendientes != []
    ensures Inv(RetirarPendiente(g))
  {
    var p := g.pendientes[0];
    var h := g.(pendientes := g.pendientes[1..],
                estado := g.estado.(burbujas := Quitar(g.estado.burbujas, p.id)));
    assert Inv(h.(juegoActivo := false));
    if p.nuevasVidas <= 0 {
      InvTerminar(h);
    }
  }

  lemma InvLimpiar(g: Juego)
    requires Inv(g)
    ensures Inv(Limpiar(g))
  {
  }

  // ---------------------------------------------------------------------
  // The round timer
  // ---------------------------------------------------------------------

  /** `n` consecutive seconds of the timer loop. */
  function Segundos(g: Juego, n: nat): Juego
    decreases n
  {
    if n == 0 then g else Segundos(PasoTimer(g), n - 1)
  }

  /** From an active round with `n` seconds left, the timer keeps the round
   *  going for `n - 1` seconds and ends it at the `n`-th, calling the
   *  callback exactly once, with nothing but the clock changed. */
  lemma {:induction false} TimerAgota(g: Juego, n: nat)
    requires g.juegoActivo && g.estado.tiempoRestante == n && n > 0
    ensures forall m :: 0 <= m < n ==> Segundos(g, m).juegoActivo
    ensures var h := Segundos(g, n);
      && !h.juegoActivo
      && h.estado == g.estado.(tiempoRestante := 0, tiempoTranscurrido := g.estado.tiempoTranscurrido + n)
      && h.resultados == g.resultados + [Resultado(g.estado.puntaje, Estrellas(g.estado.puntaje), g.estado.multiplesPerdidos)]
      && h.(estado := g.estado, juegoActivo := true, resultados := g.resultados) == g
    decreases n
  {
    var g' := PasoTimer(g);
    if n > 1 {
      TimerAgota(g', n - 1);
      forall m | 0 <= m < n
        ensures Segundos(g, m).juegoActivo
      {
        if m > 0 {
          assert Segundos(g, m) == Segundos(g', m - 1);
        }
      }
    } else {
      assert Segundos(g, 1) == Segundos(g', 0) == g';
      forall m | 0 <= m < n
        ensures Segundos(g, m).juegoActivo
      {
        assert m == 0;
      }
    }
  }

  // ---------------------------------------------------------------------
  // Sequences of events
  // ---------------------------------------------------------------------

  /** What can happen to the view model: a start, a second of the timer
   *  loop, a spawn (with its random draws), a 50 ms tick of the game loop, a
   *  tap, the delayed removal after a wrong tap, and teardown. */
  datatype Evento =
    | Inicio(tabla: int)
    | Segundo
    | Aparicion(esCorrecto: bool, k: int, r: int, k2: int, x: real, velocidad: real)
    | Fotograma
    | Toque(b: Burbuja)
    | RetiroDiferido
    | Limpieza

  /** The event can occur in `g`: a start with a table of at least 2, spawn
   *  draws in range, a delayed removal only when one is pending. */
  predicate Admisible(g: Juego, e: Evento)
  {
    match e
    case Inicio(t) => t >= 2
    case Aparicion(c, k, r, k2, x, v) =>
      g.juegoActivo ==> g.tablaSeleccionada >= 2 && Sorteo(g.tablaSeleccionada, c, k, r, k2, x, v)
    case RetiroDiferido => g.pendientes != []
    case _ => true
  }

  /** One event; the spawn and game loops only act while the round is
   *  active. */
  function Aplicar(g: Juego, e: Evento): Juego
    requires Admisible(g, e)
  {
    match e
    case Inicio(t) => Iniciar(g, t)
    case Segundo => PasoTimer(g)
    case Aparicion(c, k, r, k2, x, v) => if g.juegoActivo then Generar(g, c, k, r, k2, x, v) else g
    case Fotograma => if g.juegoActivo then Actualizar(g) else g
    case Toque(b) => Tocar(g, b)
    case RetiroDiferido => RetirarPendiente(g)
    case Limpieza => Limpiar(g)
  }

  /** Outside a round only a start, a delayed removal or teardown changes
   *  anything: the timer, the spawner, the game loop and taps all check
   *  `juegoActivo` first. */
  lemma FueraDeRonda(g: Juego, e: Evento)
    requires !g.juegoActivo && Admisible(g, e)
    ensures !e.Inicio? && !e.RetiroDiferido? && !e.Limpieza? ==> Aplicar(g, e) == g
    ensures e.Inicio? ==> Aplicar(g, e).juegoActivo
  {
  }

  /** Every step keeps the invariant. */
  lemma InvPreservado(g: Juego, e: Evento)
    requires Inv(g) && Admisible(g, e)
    ensures Inv(Aplicar(g, e))
  {
    match e
    case Inicio(t) => InvIniciar(g, t);
    case Segundo => InvPasoTimer(g);
    case Aparicion(c, k, r, k2, x, v) =>
      if g.juegoActivo { InvGenerar(g, c, k, r, k2, x, v); }
    case Fotograma => if g.juegoActivo { InvActualizar(g); }
    case Toque(b) => InvTocar(g, b);
    case RetiroDiferido => InvRetirar(g);
    case Limpieza => InvLimpiar(g);
  }

  /** The callback is called by a step exactly when that step ends the
   *  active round, other than by teardown, and then once; earlier calls
   *  are never undone. */
  lemma PasoEntrega(g: Juego, e: Evento)
    requires Admisible(g, e)
    ensures var h := Aplicar(g, e);
      && g.resultados <= h.resultados
      && |h.resultados| == |g.resultados| + (if g.juegoActivo && !h.juegoActivo && !e.Limpieza? then 1 else 0)
  {
    match e
    case Fotograma =>
      if g.juegoActivo {
        AvanceEfecto(g, g.estado.burbujas, Factor(g.estado.tiempoTranscurrido));
      }
    case _ =>
  }

  predicate Traza(g: Juego, es: seq<Evento>)
    decreases |es|
  {
    es == [] || (Admisible(g, es[0]) && Traza(Aplicar(g, es[0]), es[1..]))
  }

  function Ejecutar(g: Juego, es: seq<Evento>): Juego
    requires Traza(g, es)
    decreases |es|
  {
    if es == [] then g else Ejecutar(Aplicar(g, es[0]), es[1..])
  }

  function Inicios(es: seq<Evento>): nat
  {
    if es == [] then 0 else (if es[0].Inicio? then 1 else 0) + Inicios(es[1..])
  }

  function Activo(g: Juego): nat
  {
    if g.juegoActivo then 1 else 0
  }

  /** Over any run of events the invariant holds (in particular the score is
   *  never negative and every delivered result carries the stars of its
   *  score), and the callback is called at most once per round: calls plus
   *  the round still open never exceed the rounds started. */
  lemma {:induction false} UnResultadoPorRonda(g: Juego, es: seq<Evento>)
    requires Inv(g) && Traza(g, es)
    ensures var h := Ejecutar(g, es);
      && Inv(h)
      && g.resultados <= h.resultados
      && |h.resultados| + Activo(h) <= |g.resultados| + Activo(g) + Inicios(es)
    decreases |es|
  {
    if es != [] {
      var g' := Aplicar(g, es[0]);
      InvPreservado(g, es[0]);
      PasoEntrega(g, es[0]);
      UnResultadoPorRonda(g', es[1..]);
      if es[0].Inicio? {
        assert g.juegoActivo ==> g' == g;
      }
    }
  }
}
