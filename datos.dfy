/** Data of the bubble game: a bubble, the round state with its defaults,
 *  the outcome handed to the results screen, the sound events, and the
 *  pure rules that need no state (star rating, the number written on a new
 *  bubble, the speed ramp). */
module Datos {

  /** One bubble (`Burbuja`). `x`, `y` and `velocidad` are fractions of the
   *  play area, as reals; the display colour is not modelled. */
  datatype Burbuja = Burbuja(
    id: int,
    numero: int,
    x: real,
    y: real,
    velocidad: real,
    esMultiplo: bool,
    mostrarError: bool)

  /** The round state (`EstadoJuego`). `tiempoTranscurrido` only ever counts
   *  whole seconds up from 0, so it is a `nat` here. */
  datatype EstadoJuego = EstadoJuego(
    puntaje: int,
    vidas: int,
    racha: int,
    tiempoTranscurrido: nat,
    multiplesPerdidos: seq<int>,
    tiempoRestante: int,
    burbujas: seq<Burbuja>)

  /** Length of a round in seconds. */
  const DURACION := 60

  /** The defaults of `EstadoJuego()`. */
  const ESTADO_INICIAL := EstadoJuego(0, 3, 0, 0, [], DURACION, [])

  /** What the end-of-round callback receives: score, stars, missed multiples. */
  datatype Resultado = Resultado(puntaje: int, estrellas: int, multiplesPerdidos: seq<int>)

  /** The sound effects the engine asks for: "good", "bad" and "missing". */
  datatype Sonido = Good | Bad | Missing

  /** Star rating of a final score. */
  function Estrellas(puntaje: int): (e: int)
    ensures 0 <= e <= 3
    ensures e == 3 <==> puntaje >= 200
    ensures e >= 2 <==> puntaje >= 100
    ensures e >= 1 <==> puntaje >= 50
  {
    if puntaje >= 200 then 3
    else if puntaje >= 100 then 2
    else if puntaje >= 50 then 1
    else 0
  }

  /** A better score never earns fewer stars. */
  lemma EstrellasMonotonas(p: int, q: int)
    requires p <= q
    ensures Estrellas(p) <= Estrellas(q)
  {
  }

  /** `r` is the remainder of `q * d + r` whenever `0 <= r < d`. */
  lemma RestoUnico(n: int, d: int, q: int, r: int)
    requires d > 0 && 0 <= r < d && n == d * q + r
    ensures n % d == r
  {
    var q', m := n / d, n % d;
    assert n == d * q' + m;
    var e := q - q';
    assert d * e == m - r by {
      assert d * q - d * q' == d * (q - q');
    }
  }

  lemma MulMonotona(a: int, b: int, c: int)
    requires a >= 0 && b <= c
    ensures a * b <= a * c
  {
    assert a * c - a * b == a * (c - b);
  }

  /** The number written on a new bubble, from the random draws: the
   *  "correct" branch gives `tabla * k` with `k` in [1, 10]; the other
   *  gives `r + tabla * k2` with `r` in [1, tabla - 1] and `k2` in [0, 10].
   *  Only the draws of the branch taken are constrained. */
  function NumeroGenerado(tabla: int, esCorrecto: bool, k: int, r: int, k2: int): (n: int)
    requires tabla >= 2
    requires esCorrecto ==> 1 <= k <= 10
    requires !esCorrecto ==> 1 <= r < tabla && 0 <= k2 <= 10
    ensures esCorrecto ==> n % tabla == 0 && tabla <= n <= 10 * tabla
    ensures !esCorrecto ==> n % tabla == r && n % tabla != 0 && 0 < n < 11 * tabla
  {
    if esCorrecto then
      RestoUnico(tabla * k, tabla, k, 0);
      MulMonotona(tabla, 1, k);
      MulMonotona(tabla, k, 10);
      tabla * k
    else
      RestoUnico(r + tabla * k2, tabla, k2, r);
      MulMonotona(tabla, 0, k2);
      MulMonotona(tabla, k2, 10);
      r + tabla * k2
  }

  /** The speed multiplier `1.02 ^ t` after `t` elapsed seconds, exact. */
  function Factor(t: nat): (f: real)
    ensures f >= 1.0
  {
    if t == 0 then 1.0 else 1.02 * Factor(t - 1)
  }

  /** The height a bubble reaches in one motion tick under multiplier `f`. */
  function NuevaY(b: Burbuja, f: real): real
  {
    b.y - b.velocidad * 0.01 * f
  }

  /** A bubble with a positive speed always rises. */
  lemma Sube(b: Burbuja, f: real)
    requires b.velocidad > 0.0 && f >= 1.0
    ensures NuevaY(b, f) < b.y
  {
    assert b.velocidad * 0.01 > 0.0;
    assert b.velocidad * 0.01 * f >= b.velocidad * 0.01;
  }
}
