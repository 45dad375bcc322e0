/**
 * Ballot admission: look the item up, reject the ballot when the session has expired,
 * reject it when the member already voted on the item, otherwise store exactly one ballot.
 */
module VotoService {
  import opened Entidades
  import opened Repositorio
  import opened PautaService

  /** The session of the item must not have expired at time `now`. */
  function ValidarSessaoAtiva(pauta: Pauta, now: int): Outcome
    requires DuracaoDefinida(pauta)
  {
    if IsSessaoExpirada(pauta, now) then Fail(SessaoExpirada(MsgSessaoExpirada)) else Pass
  }

  /** The member must not have a ballot on the item yet. */
  function ValidarAssociadoNaoVotou(votos: seq<Voto>, pauta: Pauta, associadoId: string): Outcome {
    if ExisteVoto(votos, pauta.id, associadoId) then Fail(Conflict(MsgAssociadoJaVotou)) else Pass
  }

  /** The ballot built from the input record and the fetched item, before the store assigns its id. */
  function CriarVoto(dto: VotoDto, pauta: Pauta): Voto {
    Voto(0, pauta.id, dto.associadoId, dto.tipoVoto)
  }

  /** The guard on the stored items that the admission rule needs: no window without duration. */
  ghost predicate AdmissaoDefinida(pautas: map<int, Pauta>, dto: VotoDto) {
    dto.pautaId in pautas ==> DuracaoDefinida(pautas[dto.pautaId])
  }

  /**
   * What registering `dto` at time `now` yields: NotFound, then SessaoExpirada, then Conflict,
   * in that order of precedence, or the ballot as the store saves it.
   */
  function Admissao(pautas: map<int, Pauta>, votos: seq<Voto>, dto: VotoDto, now: int): (r: Result<Voto>)
    requires AdmissaoDefinida(pautas, dto)
    ensures dto.pautaId !in pautas ==> r == Err(NotFound(MsgPautaNaoEncontrada))
    ensures dto.pautaId in pautas && IsSessaoExpirada(pautas[dto.pautaId], now) ==>
              r == Err(SessaoExpirada(MsgSessaoExpirada))
    ensures dto.pautaId in pautas && !IsSessaoExpirada(pautas[dto.pautaId], now)
              && ExisteVoto(votos, pautas[dto.pautaId].id, dto.associadoId) ==>
              r == Err(Conflict(MsgAssociadoJaVotou))
    ensures r.Ok? <==>
              && dto.pautaId in pautas
              && !IsSessaoExpirada(pautas[dto.pautaId], now)
              && !ExisteVoto(votos, pautas[dto.pautaId].id, dto.associadoId)
    ensures r.Ok? ==>
              r.value == Voto(|votos| + 1, pautas[dto.pautaId].id, dto.associadoId, dto.tipoVoto)
  {
    match BuscarPautaPorId(pautas, dto.pautaId)
    case Err(e) => Err(e)
    case Ok(pauta) =>
      match ValidarSessaoAtiva(pauta, now)
      case Fail(e) => Err(e)
      case Pass =>
        match ValidarAssociadoNaoVotou(votos, pauta, dto.associadoId)
        case Fail(e) => Err(e)
        case Pass => Ok(CriarVoto(dto, pauta).(id := |votos| + 1))
  }

  /** The ballots after an admission attempt: one more on success, the same otherwise. */
  function AposAdmissao(votos: seq<Voto>, r: Result<Voto>): seq<Voto> {
    if r.Ok? then votos + [r.value] else votos
  }

  /** Admission keeps at most one ballot per (item, member). */
  lemma AdmissaoPreservaUnicidade(pautas: map<int, Pauta>, votos: seq<Voto>, dto: VotoDto, now: int)
    requires AdmissaoDefinida(pautas, dto)
    requires UmVotoPorAssociado(votos)
    ensures UmVotoPorAssociado(AposAdmissao(votos, Admissao(pautas, votos, dto, now)))
  {
  }

  /** A repeated identical ballot, while the session is still open, fails with Conflict. */
  lemma VotoRepetidoConflita(pautas: map<int, Pauta>, votos: seq<Voto>, dto: VotoDto, now: int, depois: int)
    requires AdmissaoDefinida(pautas, dto)
    requires Admissao(pautas, votos, dto, now).Ok?
    requires !IsSessaoExpirada(pautas[dto.pautaId], depois)
    ensures Admissao(pautas, AposAdmissao(votos, Admissao(pautas, votos, dto, now)), dto, depois)
         == Err(Conflict(MsgAssociadoJaVotou))
  {
    var votos' := AposAdmissao(votos, Admissao(pautas, votos, dto, now));
    assert votos'[|votos|].pautaId == pautas[dto.pautaId].id && votos'[|votos|].associadoId == dto.associadoId;
  }

  /** The expiry check comes first: an expired session reports SessaoExpirada even to a repeat voter. */
  lemma ExpiracaoPrecedeConflito(pautas: map<int, Pauta>, votos: seq<Voto>, dto: VotoDto, now: int)
    requires AdmissaoDefinida(pautas, dto)
    requires dto.pautaId in pautas && IsSessaoExpirada(pautas[dto.pautaId], now)
    requires ExisteVoto(votos, pautas[dto.pautaId].id, dto.associadoId)
    ensures Admissao(pautas, votos, dto, now) == Err(SessaoExpirada(MsgSessaoExpirada))
  {
  }

  /** A ballot on an item whose session was never opened passes the expiry check. */
  lemma SemSessaoSegueParaUnicidade(pautas: map<int, Pauta>, votos: seq<Voto>, dto: VotoDto, now: int)
    requires dto.pautaId in pautas && pautas[dto.pautaId].inicioSessao.None?
    ensures Admissao(pautas, votos, dto, now) ==
              if ExisteVoto(votos, pautas[dto.pautaId].id, dto.associadoId)
              then Err(Conflict(MsgAssociadoJaVotou))
              else Ok(Voto(|votos| + 1, pautas[dto.pautaId].id, dto.associadoId, dto.tipoVoto))
  {
  }

  /** An admitted ballot adds exactly one to its own choice in the item's tally. */
  lemma ContagemAposAdmissao(pautas: map<int, Pauta>, votos: seq<Voto>, dto: VotoDto, now: int)
    requires AdmissaoDefinida(pautas, dto)
    requires Admissao(pautas, votos, dto, now).Ok?
    ensures var antes := DaPauta(votos, pautas[dto.pautaId].id);
            var t := ContarVotos(pautas, AposAdmissao(votos, Admissao(pautas, votos, dto, now)), dto.pautaId);
            && t.Ok?
            && t.value.descricao == pautas[dto.pautaId].descricao
            && t.value.votosSim == ContarVotosPorTipo(antes, Sim) + (if dto.tipoVoto == Some(Sim) then 1 else 0)
            && t.value.votosNao == ContarVotosPorTipo(antes, Nao) + (if dto.tipoVoto == Some(Nao) then 1 else 0)
  {
    var v := Admissao(pautas, votos, dto, now).value;
    var antes := DaPauta(votos, v.pautaId);
    DaPautaAposInsercao(votos, v, v.pautaId);
    assert DaPauta(votos + [v], v.pautaId) == antes + [v];
    ContagemAposInsercao(antes, v, Sim);
    ContagemAposInsercao(antes, v, Nao);
    ContagemExata(antes + [v], Sim);
    ContagemExata(antes + [v], Nao);
  }

  /** Registers the ballot of `dto` at time `now`. */
  method RegistrarVoto(db: Banco, dto: VotoDto, now: int) returns (r: Result<Voto>)
    requires db.Valid()
    modifies db
    ensures db.Valid()
    ensures r == Admissao(old(db.pautas), old(db.votos), dto, now)
    ensures db.votos == AposAdmissao(old(db.votos), r)
    ensures db.pautas == old(db.pautas) && db.proximoId == old(db.proximoId)
  {
    var busca := BuscarPautaPorId(db.pautas, dto.pautaId);
    if busca.Err? {
      return Err(busca.erro);
    }
    var pauta := busca.value;
    var sessao := ValidarSessaoAtiva(pauta, now);
    if sessao.Fail? {
      return Err(sessao.erro);
    }
    var unicidade := ValidarAssociadoNaoVotou(db.votos, pauta, dto.associadoId);
    if unicidade.Fail? {
      return Err(unicidade.erro);
    }
    var voto := CriarVoto(dto, pauta);
    var votoSalvo := db.InserirVoto(voto);
    r := Ok(votoSalvo);
  }
}
