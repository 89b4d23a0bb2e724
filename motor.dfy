/** `GameViewModel` as a class whose fields the methods update in place.
 *  Each coroutine loop of the engine contributes one method per iteration
 *  (`PasoTimer`, `PasoGeneracion`, `PasoBucle`), the delayed part of a wrong
 *  tap is `RetirarDiferido`, and every method is proved to move the state
 *  exactly as the matching function of module Reglas says. */
module Motor {
  import opened Datos
  import opened Reglas

  class GameViewModel {
    var estado: EstadoJuego
    var contadorBurbujas: int
    var juegoActivo: bool
    var burbujasEscapadasCount: int
    var tablaSeleccionada: int
    /** Wrong-tap removals launched and not yet run, oldest first. */
    var pendientes: seq<Pendiente>
    /** The calls made to the end-of-round callback. */
    var resultados: seq<Resultado>
    /** The sound effects requested. */
    var sonidos: seq<Sonido>

    /** The state as one value. */
    function Modelo(): Juego
      reads this
    {
      Juego(estado, contadorBurbujas, juegoActivo, burbujasEscapadasCount,
            tablaSeleccionada, pendientes, resultados, sonidos)
    }

    ghost predicate Valid()
      reads this
    {
      Inv(Modelo())
    }

    constructor ()
      ensures Modelo() == JUEGO_INICIAL && Valid()
    {
      estado := ESTADO_INICIAL;
      contadorBurbujas := 0;
      juegoActivo := false;
      burbujasEscapadasCount := 0;
      tablaSeleccionada := 2;
      pendientes := [];
      resultados := [];
      sonidos := [];
      InvInicial();
    }

    method IniciarJuego(tabla: int)
      requires Valid() && tabla >= 2
      modifies this
      ensures Valid() && Modelo() == Iniciar(old(Modelo()), tabla)
    {
      InvIniciar(Modelo(), tabla);
      if juegoActivo {
        return;
      }
      juegoActivo := true;
      tablaSeleccionada := tabla;
      estado := ESTADO_INICIAL;
    }

    /** `terminarJuego`. */
    method TerminarJuego()
      modifies this
      ensures Modelo() == Terminar(old(Modelo()))
    {
      if !juegoActivo {
        return;
      }
      juegoActivo := false;
      var estrellas := Estrellas(estado.puntaje);
      resultados := resultados + [Resultado(estado.puntaje, estrellas, estado.multiplesPerdidos)];
    }

    /** One iteration of the timer loop, after its one-second delay. */
    method PasoTimer()
      requires Valid()
      modifies this
      ensures Valid() && Modelo() == Reglas.PasoTimer(old(Modelo()))
    {
      InvPasoTimer(Modelo());
      if juegoActivo {
        estado := estado.(tiempoRestante := estado.tiempoRestante - 1,
                          tiempoTranscurrido := estado.tiempoTranscurrido + 1);
        if estado.tiempoRestante <= 0 {
          TerminarJuego();
        }
      }
    }

    /** `generarBurbuja`, given the random draws. */
    method GenerarBurbuja(esCorrecto: bool, k: int, r: int, k2: int, x: real, velocidad: real)
      requires tablaSeleccionada >= 2
      requires Sorteo(tablaSeleccionada, esCorrecto, k, r, k2, x, velocidad)
      modifies this
      ensures Modelo() == Generar(old(Modelo()), esCorrecto, k, r, k2, x, velocidad)
    {
      var tabla := tablaSeleccionada;
      var numero := if esCorrecto then tabla * k else r + tabla * k2;
      var nueva := Burbuja(contadorBurbujas, numero, x, 1.1, velocidad, numero % tabla == 0, false);
      contadorBurbujas := contadorBurbujas + 1;
      estado := estado.(burbujas := estado.burbujas + [nueva]);
    }

    /** One iteration of the spawn loop, after its two-second delay. */
    method PasoGeneracion(esCorrecto: bool, k: int, r: int, k2: int, x: real, velocidad: real)
      requires Valid()
      requires juegoActivo ==> Sorteo(tablaSeleccionada, esCorrecto, k, r, k2, x, velocidad)
      modifies this
      ensures Valid()
      ensures Modelo() == Aplicar(old(Modelo()), Aparicion(esCorrecto, k, r, k2, x, velocidad))
    {
      if juegoActivo {
        InvGenerar(Modelo(), esCorrecto, k, r, k2, x, velocidad);
        GenerarBurbuja(esCorrecto, k, r, k2, x, velocidad);
      }
    }

    /** `actualizarBurbujas`: the `mapNotNull` pass, then the new list. */
    method ActualizarBurbujas()
      modifies this
      ensures Modelo() == Actualizar(old(Modelo()))
    {
      var bs := estado.burbujas;
      var f := Factor(estado.tiempoTranscurrido);
      var kept: seq<Burbuja> := [];
      var i := 0;
      while i < |bs|
        invariant 0 <= i <= |bs|
        invariant estado.burbujas == bs
        invariant (Modelo(), kept) == Avance(old(Modelo()), bs[..i], f)
      {
        var b := bs[i];
        ghost var antes, antesKept := Modelo(), kept;
        assert bs[..i + 1][..i] == bs[..i] && bs[..i + 1][i] == b;
        var nuevaY := b.y - b.velocidad * 0.01 * f;
        assert nuevaY == NuevaY(b, f);
        if nuevaY > 0.0 {
          kept := kept + [b.(y := nuevaY)];
        } else if b.esMultiplo {
          sonidos := sonidos + [Missing];
          estado := estado.(multiplesPerdidos := estado.multiplesPerdidos + [b.numero]);
          burbujasEscapadasCount := burbujasEscapadasCount + 1;
          if burbujasEscapadasCount % 3 == 0 {
            var nuevasVidas := estado.vidas - 1;
            estado := estado.(vidas := nuevasVidas, racha := 0);
            if nuevasVidas <= 0 {
              TerminarJuego();
            }
          }
        }
        assert (Modelo(), kept) == if nuevaY > 0.0 then (antes, antesKept + [b.(y := nuevaY)])
                                   else (Escapar(antes, b), antesKept);
        i := i + 1;
      }
      assert bs[..|bs|] == bs;
      estado := estado.(burbujas := kept);
    }

    /** One iteration of the game loop, after its 50 ms delay. */
    method PasoBucle()
      requires Valid()
      modifies this
      ensures Valid() && Modelo() == Aplicar(old(Modelo()), Fotograma)
    {
      if juegoActivo {
        InvActualizar(Modelo());
        ActualizarBurbujas();
      }
    }

    /** `tocarBurbuja`; the delayed removal of a wrong tap is queued. */
    method TocarBurbuja(burbuja: Burbuja)
      requires Valid()
      modifies this
      ensures Valid() && Modelo() == Tocar(old(Modelo()), burbuja)
    {
      InvTocar(Modelo(), burbuja);
      if !juegoActivo {
        return;
      }
      if burbuja.esMultiplo {
        sonidos := sonidos + [Good];
        var nuevaRacha := estado.racha + 1;
        var puntosExtra := if nuevaRacha >= 5 then 10 else 0;
        estado := estado.(puntaje := estado.puntaje + 10 + puntosExtra,
                          racha := nuevaRacha,
                          burbujas := Quitar(estado.burbujas, burbuja.id));
      } else {
        sonidos := sonidos + [Bad];
        var nuevasVidas := estado.vidas - 1;
        var nuevasBurbujas := MarcarError(estado.burbujas, burbuja.id);
        var p := estado.puntaje - 5;
        estado := estado.(puntaje := if p > 0 then p else 0,
                          vidas := nuevasVidas,
                          racha := 0,
                          burbujas := nuevasBurbujas);
        pendientes := pendientes + [Pendiente(burbuja.id, nuevasVidas)];
      }
    }

    /** The delayed removal of a wrong tap, 500 ms after it. */
    method RetirarDiferido()
      requires Valid() && pendientes != []
      modifies this
      ensures Valid() && Modelo() == RetirarPendiente(old(Modelo()))
    {
      InvRetirar(Modelo());
      var p := pendientes[0];
      pendientes := pendientes[1..];
      estado := estado.(burbujas := Quitar(estado.burbujas, p.id));
      if p.nuevasVidas <= 0 {
        TerminarJuego();
      }
    }

    /** `onCleared`. */
    method OnCleared()
      requires Valid()
      modifies this
      ensures Valid() && Modelo() == Limpiar(old(Modelo()))
    {
      InvLimpiar(Modelo());
      juegoActivo := false;
      pendientes := [];
    }
  }
}
