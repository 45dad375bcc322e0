/**
 * The agenda-item lifecycle: registering an item, looking it up, listing, opening
 * its voting session once, deciding whether the session has expired, and the tally.
 */
module PautaService {
  import opened Entidades
  import opened Repositorio

  // ---------------------------------------------------------------------------
  // Lookup and listing
  // ---------------------------------------------------------------------------

  /** The stored item with that id, or NotFound. */
  function BuscarPautaPorId(pautas: map<int, Pauta>, pautaId: int): (r: Result<Pauta>)
    ensures r.Ok? <==> pautaId in pautas
    ensures r.Ok? ==> r.value == pautas[pautaId]
    ensures r.Err? ==> r.erro == NotFound(MsgPautaNaoEncontrada)
  {
    if pautaId in pautas then Ok(pautas[pautaId]) else Err(NotFound(MsgPautaNaoEncontrada))
  }

  /** Every stored item exactly as stored, each once, in increasing id order (the order of registration). */
  function ListarPautas(pautas: map<int, Pauta>, proximoId: int): (r: seq<Pauta>)
    requires PautasValidas(pautas, proximoId)
    ensures forall p :: p in r ==> p.id in pautas && pautas[p.id] == p
    ensures forall id :: id in pautas ==> pautas[id] in r
    ensures forall i, j :: 0 <= i < j < |r| ==> r[i].id < r[j].id
  {
    var r := seq(proximoId - 1, i requires 0 <= i < proximoId - 1 => pautas[i + 1]);
    assert forall id :: id in pautas ==> r[id - 1] == pautas[id];
    r
  }

  // ---------------------------------------------------------------------------
  // Registering an item
  // ---------------------------------------------------------------------------

  /** The entity built from the input record: only the description, no session. */
  function CriarNovaPauta(descricao: string): Pauta {
    Pauta(0, descricao, None, None)
  }

  /** Stores a new item with the given description and no session, and returns it. */
  method CadastrarPauta(db: Banco, descricao: string) returns (p: Pauta)
    requires db.Valid()
    modifies db
    ensures db.Valid()
    ensures p.descricao == descricao && p.inicioSessao == None && p.tempoSessaoMinutos == None
    ensures p.id == old(db.proximoId) && db.proximoId == old(db.proximoId) + 1
    ensures p.id !in old(db.pautas) && db.pautas == old(db.pautas)[p.id := p]
    ensures db.votos == old(db.votos)
  {
    var novaPauta := CriarNovaPauta(descricao);
    p := db.InserirPauta(novaPauta);
  }

  // ---------------------------------------------------------------------------
  // The session window
  // ---------------------------------------------------------------------------

  /** The end of the window: the start plus the duration in minutes. */
  function FimSessao(p: Pauta): int
    requires p.inicioSessao.Some? && p.tempoSessaoMinutos.Some?
  {
    p.inicioSessao.value + p.tempoSessaoMinutos.value
  }

  /** Whether the session has expired at time `now`; an item never opened is never expired. */
  function IsSessaoExpirada(p: Pauta, now: int): (r: bool)
    requires DuracaoDefinida(p)
    ensures r ==> p.inicioSessao.Some?
  {
    if p.inicioSessao.None? then false else now > FimSessao(p)
  }

  /** Once opened, the session is expired exactly when `now` is strictly after its end. */
  lemma ExpiradaSseAposFim(p: Pauta, now: int)
    requires p.inicioSessao.Some? && p.tempoSessaoMinutos.Some?
    ensures IsSessaoExpirada(p, now) <==> now > p.inicioSessao.value + p.tempoSessaoMinutos.value
    ensures !IsSessaoExpirada(p, p.inicioSessao.value + p.tempoSessaoMinutos.value)
    ensures IsSessaoExpirada(p, p.inicioSessao.value + p.tempoSessaoMinutos.value + 1)
  {
  }

  /** Once expired, a session stays expired. */
  lemma ExpiracaoMonotona(p: Pauta, antes: int, depois: int)
    requires DuracaoDefinida(p) && antes <= depois
    ensures IsSessaoExpirada(p, antes) ==> IsSessaoExpirada(p, depois)
  {
  }

  /** Expiry depends on the stored window and the time only, not on id or description. */
  lemma ExpiracaoSoDependeDaJanela(p: Pauta, q: Pauta, now: int)
    requires DuracaoDefinida(p)
    requires p.inicioSessao == q.inicioSessao && p.tempoSessaoMinutos == q.tempoSessaoMinutos
    ensures IsSessaoExpirada(p, now) == IsSessaoExpirada(q, now)
  {
  }

  // ---------------------------------------------------------------------------
  // Opening the session
  // ---------------------------------------------------------------------------

  /** A session may be opened only on an item that has none yet. */
  function ValidarSessaoNaoAberta(p: Pauta): Outcome {
    if p.inicioSessao.Some? then Fail(Conflict(MsgSessaoJaAberta)) else Pass
  }

  /** The requested duration, or the one-minute default. */
  function DuracaoOuPadrao(tempoSessao: Option<int>): int {
    if tempoSessao.Some? then tempoSessao.value else DuracaoPadraoMinutos
  }

  /** What opening the session of `pautaId` at time `now` yields against the stored items. */
  function Abertura(pautas: map<int, Pauta>, pautaId: int, tempoSessao: Option<int>, now: int)
    : (r: Result<Pauta>)
    ensures pautaId !in pautas ==> r == Err(NotFound(MsgPautaNaoEncontrada))
    ensures pautaId in pautas && pautas[pautaId].inicioSessao.Some? ==>
              r == Err(Conflict(MsgSessaoJaAberta))
    ensures r.Ok? <==> pautaId in pautas && pautas[pautaId].inicioSessao.None?
    ensures r.Ok? ==>
              && r.value.id == pautas[pautaId].id
              && r.value.descricao == pautas[pautaId].descricao
              && r.value.inicioSessao == Some(now)
              && r.value.tempoSessaoMinutos ==
                   Some(if tempoSessao.Some? then tempoSessao.value else 1)
  {
    match BuscarPautaPorId(pautas, pautaId)
    case Err(e) => Err(e)
    case Ok(p) =>
      match ValidarSessaoNaoAberta(p)
      case Fail(e) => Err(e)
      case Pass =>
        Ok(p.(inicioSessao := Some(now), tempoSessaoMinutos := Some(DuracaoOuPadrao(tempoSessao))))
  }

  /** The items after an opening attempt: the opened item is replaced, nothing else changes. */
  function AposAbertura(pautas: map<int, Pauta>, pautaId: int, r: Result<Pauta>): map<int, Pauta> {
    if r.Ok? then pautas[pautaId := r.value] else pautas
  }

  /** No item loses its session or has it changed, and no item disappears. */
  ghost predicate SessoesFixadas(antes: map<int, Pauta>, depois: map<int, Pauta>) {
    forall id :: id in antes ==>
      id in depois && (antes[id].inicioSessao.Some? ==> depois[id] == antes[id])
  }

  /** Opening a session never touches an already opened one. */
  lemma AberturaPreservaSessoes(pautas: map<int, Pauta>, pautaId: int, tempoSessao: Option<int>, now: int)
    ensures SessoesFixadas(pautas, AposAbertura(pautas, pautaId, Abertura(pautas, pautaId, tempoSessao, now)))
  {
  }

  /** A session opens once: a second attempt on the same item fails with Conflict, at any time. */
  lemma AberturaUnica(pautas: map<int, Pauta>, pautaId: int, tempoSessao: Option<int>, now: int,
                      outroTempo: Option<int>, depois: int)
    requires Abertura(pautas, pautaId, tempoSessao, now).Ok?
    ensures var pautas' := AposAbertura(pautas, pautaId, Abertura(pautas, pautaId, tempoSessao, now));
            Abertura(pautas', pautaId, outroTempo, depois) == Err(Conflict(MsgSessaoJaAberta))
  {
  }

  /** A freshly opened window of non-negative length is open from `now` to its end. */
  lemma SessaoRecemAbertaAtiva(pautas: map<int, Pauta>, pautaId: int, tempoSessao: Option<int>,
                               now: int, t: int)
    requires Abertura(pautas, pautaId, tempoSessao, now).Ok?
    requires now <= t <= now + DuracaoOuPadrao(tempoSessao)
    ensures !IsSessaoExpirada(Abertura(pautas, pautaId, tempoSessao, now).value, t)
  {
  }

  /** Opens the voting session of `pautaId` at time `now`, once. */
  method AbrirSessao(db: Banco, pautaId: int, tempoSessao: Option<int>, now: int) returns (r: Result<Pauta>)
    requires db.Valid()
    modifies db
    ensures db.Valid()
    ensures r == Abertura(old(db.pautas), pautaId, tempoSessao, now)
    ensures db.pautas == AposAbertura(old(db.pautas), pautaId, r)
    ensures db.votos == old(db.votos) && db.proximoId == old(db.proximoId)
  {
    var busca := BuscarPautaPorId(db.pautas, pautaId);
    if busca.Err? {
      return Err(busca.erro);
    }
    var pauta := busca.value;
    var validacao := ValidarSessaoNaoAberta(pauta);
    if validacao.Fail? {
      return Err(validacao.erro);
    }
    pauta := pauta.(inicioSessao := Some(now));
    pauta := pauta.(tempoSessaoMinutos := Some(DuracaoOuPadrao(tempoSessao)));
    db.AtualizarPauta(pauta);
    r := Ok(pauta);
  }

  // ---------------------------------------------------------------------------
  // The tally
  // ---------------------------------------------------------------------------

  /** The number of ballots of the given choice; a ballot without a choice matches neither. */
  function ContarVotosPorTipo(votos: seq<Voto>, tipo: TipoVoto): (n: nat)
    ensures n <= |votos|
    ensures n == 0 <==> forall i :: 0 <= i < |votos| ==> votos[i].tipoVoto != Some(tipo)
    ensures n == |votos| <==> forall i :: 0 <= i < |votos| ==> votos[i].tipoVoto == Some(tipo)
  {
    if votos == [] then 0
    else (if votos[0].tipoVoto == Some(tipo) then 1 else 0) + ContarVotosPorTipo(votos[1..], tipo)
  }

  /** The choices of the ballots, in order, `None` for a ballot without one. */
  function Tipos(votos: seq<Voto>): seq<Option<TipoVoto>> {
    seq(|votos|, i requires 0 <= i < |votos| => votos[i].tipoVoto)
  }

  /** The count is exactly the multiplicity of the choice among the ballots. */
  lemma {:induction false} ContagemExata(votos: seq<Voto>, tipo: TipoVoto)
    ensures ContarVotosPorTipo(votos, tipo) == multiset(Tipos(votos))[Some(tipo)]
  {
    if votos != [] {
      ContagemExata(votos[1..], tipo);
      assert Tipos(votos) == [votos[0].tipoVoto] + Tipos(votos[1..]);
    }
  }

  /**
   * The SIM and NAO counts together with the ballots that carry no choice make up all the
   * ballots, so SIM + NAO reaches the number of ballots exactly when every ballot has a choice.
   */
  lemma {:induction false} SimMaisNaoTotal(votos: seq<Voto>)
    ensures ContarVotosPorTipo(votos, Sim) + ContarVotosPorTipo(votos, Nao) + multiset(Tipos(votos))[None]
         == |votos|
    ensures ContarVotosPorTipo(votos, Sim) + ContarVotosPorTipo(votos, Nao) <= |votos|
    ensures ContarVotosPorTipo(votos, Sim) + ContarVotosPorTipo(votos, Nao) == |votos|
        <==> forall i :: 0 <= i < |votos| ==> votos[i].tipoVoto.Some?
  {
    SemEscolhaCompleta(votos);
    assert forall i :: 0 <= i < |votos| ==> Tipos(votos)[i] == votos[i].tipoVoto;
    assert multiset(Tipos(votos))[None] == 0 <==> None !in Tipos(votos);
  }

  /** Counting SIM, NAO and the ballots without a choice accounts for every ballot once. */
  lemma {:induction false} SemEscolhaCompleta(votos: seq<Voto>)
    ensures ContarVotosPorTipo(votos, Sim) + ContarVotosPorTipo(votos, Nao) + multiset(Tipos(votos))[None]
         == |votos|
  {
    if votos != [] {
      SemEscolhaCompleta(votos[1..]);
      assert Tipos(votos) == [votos[0].tipoVoto] + Tipos(votos[1..]);
      assert multiset(Tipos(votos)) == multiset{votos[0].tipoVoto} + multiset(Tipos(votos[1..]));
      match votos[0].tipoVoto
      case None =>
      case Some(t) => assert t == Sim || t == Nao;
    }
  }

  /** One more ballot adds one to the count of its own choice and nothing to the other. */
  lemma {:induction false} ContagemAposInsercao(votos: seq<Voto>, v: Voto, tipo: TipoVoto)
    ensures ContarVotosPorTipo(votos + [v], tipo)
         == ContarVotosPorTipo(votos, tipo) + (if v.tipoVoto == Some(tipo) then 1 else 0)
  {
    if votos == [] {
      assert votos + [v] == [v];
    } else {
      assert (votos + [v])[0] == votos[0];
      assert (votos + [v])[1..] == votos[1..] + [v];
      ContagemAposInsercao(votos[1..], v, tipo);
    }
  }

  /** The ballots {SIM, SIM, NAO} tally to 2 and 1. */
  lemma ContagemExemplo(v1: Voto, v2: Voto, v3: Voto)
    requires v1.tipoVoto == Some(Sim) && v2.tipoVoto == Some(Sim) && v3.tipoVoto == Some(Nao)
    ensures ContarVotosPorTipo([v1, v2, v3], Sim) == 2 && ContarVotosPorTipo([v1, v2, v3], Nao) == 1
  {
  }

  /** A tally needs at least one ballot. */
  function ValidarPautaComVotos(votos: seq<Voto>): Outcome {
    if votos == [] then Fail(NotFound(MsgNenhumVoto)) else Pass
  }

  /** The tally of `pautaId`: its description with the exact SIM and NAO counts of its ballots. */
  function ContarVotos(pautas: map<int, Pauta>, votos: seq<Voto>, pautaId: int): (r: Result<ResultadoVotacao>)
    ensures pautaId !in pautas ==> r == Err(NotFound(MsgPautaNaoEncontrada))
    ensures pautaId in pautas && DaPauta(votos, pautas[pautaId].id) == [] ==>
              r == Err(NotFound(MsgNenhumVoto))
    ensures r.Ok? <==> pautaId in pautas && DaPauta(votos, pautas[pautaId].id) != []
    ensures r.Ok? ==>
              var doItem := DaPauta(votos, pautas[pautaId].id);
              && r.value.descricao == pautas[pautaId].descricao
              && r.value.votosSim == multiset(Tipos(doItem))[Some(Sim)]
              && r.value.votosNao == multiset(Tipos(doItem))[Some(Nao)]
              && r.value.votosSim + r.value.votosNao + multiset(Tipos(doItem))[None] == |doItem|
  {
    match BuscarPautaPorId(pautas, pautaId)
    case Err(e) => Err(e)
    case Ok(pauta) =>
      var doItem := DaPauta(votos, pauta.id);
      match ValidarPautaComVotos(doItem)
      case Fail(e) => Err(e)
      case Pass =>
        ContagemExata(doItem, Sim);
        ContagemExata(doItem, Nao);
        SimMaisNaoTotal(doItem);
        Ok(ResultadoVotacao(pauta.descricao, ContarVotosPorTipo(doItem, Sim), ContarVotosPorTipo(doItem, Nao)))
  }
}
