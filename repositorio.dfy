/**
 * The in-memory store that stands for the two JPA repositories: agenda items by id,
 * and the ballots in the order they were saved.
 */
module Repositorio {
  import opened Entidades

  /** The ballots of one agenda item, in storage order (VotoRepository.findByPauta). */
  function DaPauta(votos: seq<Voto>, pautaId: int): (r: seq<Voto>)
    ensures |r| <= |votos|
    ensures forall v :: v in r <==> v in votos && v.pautaId == pautaId
  {
    if votos == [] then []
    else if votos[0].pautaId == pautaId then [votos[0]] + DaPauta(votos[1..], pautaId)
    else DaPauta(votos[1..], pautaId)
  }

  /** Saving one more ballot extends the item's ballots by it, or leaves them alone. */
  lemma {:induction false} DaPautaAposInsercao(votos: seq<Voto>, v: Voto, pautaId: int)
    ensures DaPauta(votos + [v], pautaId)
         == DaPauta(votos, pautaId) + (if v.pautaId == pautaId then [v] else [])
  {
    if votos == [] {
      assert votos + [v] == [v];
    } else {
      assert (votos + [v])[0] == votos[0];
      assert (votos + [v])[1..] == votos[1..] + [v];
      DaPautaAposInsercao(votos[1..], v, pautaId);
    }
  }

  /** Some ballot of this member on this item exists (VotoRepository.existsByPautaAndAssociadoId). */
  predicate ExisteVoto(votos: seq<Voto>, pautaId: int, associadoId: string) {
    exists i :: 0 <= i < |votos| && votos[i].pautaId == pautaId && votos[i].associadoId == associadoId
  }

  /** The existence check agrees with the item's ballot list. */
  lemma ExisteVotoSseNaPauta(votos: seq<Voto>, pautaId: int, associadoId: string)
    ensures ExisteVoto(votos, pautaId, associadoId)
        <==> exists v :: v in DaPauta(votos, pautaId) && v.associadoId == associadoId
  {
  }

  /** At most one ballot per (agenda item, member). */
  ghost predicate UmVotoPorAssociado(votos: seq<Voto>) {
    forall i, j ::
      0 <= i < j < |votos| && votos[i].pautaId == votos[j].pautaId ==>
        votos[i].associadoId != votos[j].associadoId
  }

  /** Items are keyed by their own id, ids run from 1 below `proximoId`, and session fields are paired. */
  ghost predicate PautasValidas(pautas: map<int, Pauta>, proximoId: int) {
    && proximoId >= 1
    && (forall id :: id in pautas <==> 1 <= id < proximoId)
    && (forall id :: id in pautas ==> pautas[id].id == id && SessaoConsistente(pautas[id]))
  }

  /** Ballot ids follow storage order from 1, and every ballot refers to a stored item. */
  ghost predicate VotosValidos(votos: seq<Voto>, pautas: map<int, Pauta>) {
    forall i :: 0 <= i < |votos| ==> votos[i].id == i + 1 && votos[i].pautaId in pautas
  }

  class Banco {
    var pautas: map<int, Pauta>
    var proximoId: int
    var votos: seq<Voto>

    ghost predicate Valid()
      reads this
    {
      PautasValidas(pautas, proximoId) && VotosValidos(votos, pautas) && UmVotoPorAssociado(votos)
    }

    constructor ()
      ensures Valid()
      ensures pautas == map[] && proximoId == 1 && votos == []
    {
      pautas := map[];
      proximoId := 1;
      votos := [];
    }

    /** PautaRepository.save of a new entity: the identity column assigns the next id. */
    method InserirPauta(p: Pauta) returns (salva: Pauta)
      requires Valid() && SessaoConsistente(p)
      modifies this
      ensures Valid()
      ensures salva == p.(id := old(proximoId)) && salva.id !in old(pautas)
      ensures pautas == old(pautas)[salva.id := salva]
      ensures proximoId == old(proximoId) + 1 && votos == old(votos)
    {
      salva := p.(id := proximoId);
      pautas := pautas[salva.id := salva];
      proximoId := proximoId + 1;
    }

    /** PautaRepository.save of an entity already stored: its row is overwritten. */
    method AtualizarPauta(p: Pauta)
      requires Valid() && p.id in pautas && SessaoConsistente(p)
      modifies this
      ensures Valid()
      ensures pautas == old(pautas)[p.id := p]
      ensures proximoId == old(proximoId) && votos == old(votos)
    {
      pautas := pautas[p.id := p];
    }

    /**
     * VotoRepository.save of a new ballot: the identity column assigns the next id.
     * The service saves a ballot only after its duplicate check has passed, which is
     * what keeps one ballot per (item, member) in the store.
     */
    method InserirVoto(v: Voto) returns (salvo: Voto)
      requires Valid() && v.pautaId in pautas && !ExisteVoto(votos, v.pautaId, v.associadoId)
      modifies this
      ensures Valid()
      ensures salvo == v.(id := |old(votos)| + 1)
      ensures votos == old(votos) + [salvo]
      ensures pautas == old(pautas) && proximoId == old(proximoId)
    {
      salvo := v.(id := |votos| + 1);
      votos := votos + [salvo];
    }
  }
}
