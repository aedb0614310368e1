/**
 * `EventoService`: the background service that polls the club's events and
 * notifies the ones it has not notified before, remembering their ids in
 * `eventosNotificados`.
 */
module EventoService {
  import opened Entities

  /** The ids of some events. */
  function Ids(eventos: seq<Evento>): set<int> {
    set e | e in eventos :: e.idEvento
  }

  /**
   * The events a pass over `eventos` notifies when the ids in `vistos` were
   * notified before: one left to right, each event whose id neither `vistos`
   * nor an earlier event of the list holds.
   */
  function Nuevos(eventos: seq<Evento>, vistos: set<int>): (notificados: seq<Evento>)
    ensures |notificados| <= |eventos|
    decreases |eventos|
  {
    if |eventos| == 0 then []
    else
      var previos := eventos[..|eventos| - 1];
      var e := eventos[|eventos| - 1];
      Nuevos(previos, vistos) + (if e.idEvento in vistos + Ids(previos) then [] else [e])
  }

  lemma IdsStep(eventos: seq<Evento>, i: int)
    requires 0 <= i < |eventos|
    ensures Ids(eventos[..i + 1]) == Ids(eventos[..i]) + {eventos[i].idEvento}
  {
    assert eventos[..i + 1] == eventos[..i] + [eventos[i]];
  }

  lemma IdsConcat(a: seq<Evento>, b: seq<Evento>)
    ensures Ids(a + b) == Ids(a) + Ids(b)
  {
    assert forall e :: e in a + b <==> e in a || e in b;
  }

  /** The ids notified are exactly the ids of the list not notified before. */
  lemma {:induction false} NuevosIds(eventos: seq<Evento>, vistos: set<int>)
    ensures Ids(Nuevos(eventos, vistos)) == Ids(eventos) - vistos
    decreases |eventos|
  {
    if |eventos| > 0 {
      var n := |eventos| - 1;
      NuevosIds(eventos[..n], vistos);
      IdsStep(eventos, n);
      assert eventos[..n + 1] == eventos;
      var e := eventos[n];
      var antes := Nuevos(eventos[..n], vistos);
      var tail: seq<Evento> := if e.idEvento in vistos + Ids(eventos[..n]) then [] else [e];
      assert Nuevos(eventos, vistos) == antes + tail;
      IdsConcat(antes, tail);
      assert Ids(tail) == if tail == [] then {} else {e.idEvento};
    }
  }

  /** No id is notified twice in one pass, duplicates in the list included. */
  lemma {:induction false} NuevosSinRepetir(eventos: seq<Evento>, vistos: set<int>)
    ensures var notificados := Nuevos(eventos, vistos);
      forall i, j :: 0 <= i < j < |notificados| ==> notificados[i].idEvento != notificados[j].idEvento
    decreases |eventos|
  {
    if |eventos| > 0 {
      var n := |eventos| - 1;
      var previos := eventos[..n];
      NuevosSinRepetir(previos, vistos);
      NuevosIds(previos, vistos);
      var antes := Nuevos(previos, vistos);
      var e := eventos[n];
      var notificados := Nuevos(eventos, vistos);
      if e.idEvento !in vistos + Ids(previos) {
        assert notificados == antes + [e];
        forall i | 0 <= i < |antes| ensures antes[i].idEvento != e.idEvento {
          assert antes[i] in antes;
          assert antes[i].idEvento in Ids(antes);
        }
      }
    }
  }

  /** Across two polls no id is notified in both: the second starts from what the first left. */
  lemma DosConsultas(a: seq<Evento>, b: seq<Evento>, vistos: set<int>)
    ensures Ids(Nuevos(a, vistos)) !! Ids(Nuevos(b, vistos + Ids(a)))
  {
    NuevosIds(a, vistos);
    NuevosIds(b, vistos + Ids(a));
  }

  lemma NuevosStep(eventos: seq<Evento>, vistos: set<int>, i: int)
    requires 0 <= i < |eventos|
    ensures Nuevos(eventos[..i + 1], vistos) ==
            Nuevos(eventos[..i], vistos) + (if eventos[i].idEvento in vistos + Ids(eventos[..i]) then [] else [eventos[i]])
  {
    assert eventos[..i + 1][..i] == eventos[..i];
  }

  class Service {
    /** The ids notified since the service was created. */
    var eventosNotificados: set<int>

    constructor ()
      ensures eventosNotificados == {}
    {
      eventosNotificados := {};
    }

    /**
     * `verificarEventosNuevos`: on a connection and a query that succeed,
     * notifies each event whose id is not yet remembered and remembers it
     * at once; a failed connection or query notifies nothing and changes
     * nothing.
     */
    method VerificarEventosNuevos(conn: Connection, resultado: Outcome<seq<Evento>>)
      returns (notificados: seq<Evento>)
      modifies this
      ensures conn.ConnectionFailed? || resultado.OnError? ==>
        notificados == [] && eventosNotificados == old(eventosNotificados)
      ensures conn.Connected? && resultado.OnResult? ==>
        notificados == Nuevos(resultado.value, old(eventosNotificados)) &&
        eventosNotificados == old(eventosNotificados) + Ids(resultado.value)
    {
      notificados := [];
      if conn.ConnectionFailed? || resultado.OnError? {
        return;
      }
      var eventos := resultado.value;
      for i := 0 to |eventos|
        invariant notificados == Nuevos(eventos[..i], old(eventosNotificados))
        invariant eventosNotificados == old(eventosNotificados) + Ids(eventos[..i])
      {
        NuevosStep(eventos, old(eventosNotificados), i);
        IdsStep(eventos, i);
        var evento := eventos[i];
        if evento.idEvento !in eventosNotificados {
          notificados := notificados + [evento];
          eventosNotificados := eventosNotificados + {evento.idEvento};
        }
      }
      assert eventos[..|eventos|] == eventos;
    }
  }
}
