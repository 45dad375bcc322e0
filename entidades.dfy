/**
 * Entities, input records and typed failures of the cooperative voting service.
 *
 * Time is an integer number of minutes. An id of 0 stands for "not assigned yet":
 * the store's identity column hands out ids starting at 1.
 */
module Entidades {

  datatype Option<T> = None | Some(value: T)

  /** The two ballot choices. */
  datatype TipoVoto = Sim | Nao

  /** An agenda item. `inicioSessao` and `tempoSessaoMinutos` are absent until a session is opened. */
  datatype Pauta = Pauta(
    id: int,
    descricao: string,
    inicioSessao: Option<int>,
    tempoSessaoMinutos: Option<int>)

  /**
   * One member's ballot; `pautaId` is the non-owning reference to the agenda item.
   * The choice is nullable: a ballot whose input carried no choice is stored with `None`.
   */
  datatype Voto = Voto(id: int, pautaId: int, associadoId: string, tipoVoto: Option<TipoVoto>)

  /** The input record of a ballot; nothing validates that it carries a choice. */
  datatype VotoDto = VotoDto(pautaId: int, associadoId: string, tipoVoto: Option<TipoVoto>)

  /** The service's exceptions: NotFoundException, ConflictRequestException, SessaoExpiradaException. */
  datatype Erro =
    | NotFound(mensagem: string)
    | Conflict(mensagem: string)
    | SessaoExpirada(mensagem: string)

  datatype Result<T> = Ok(value: T) | Err(erro: Erro)

  /** The outcome of a guard that either passes or throws. */
  datatype Outcome = Pass | Fail(erro: Erro)

  /** The tally: the item's description with the SIM and NAO counts. */
  datatype ResultadoVotacao = ResultadoVotacao(descricao: string, votosSim: nat, votosNao: nat)

  const MsgPautaNaoEncontrada := "Pauta não encontrada"
  const MsgSessaoJaAberta := "A sessão já foi aberta para esta pauta"
  const MsgNenhumVoto := "Nenhum voto registrado para esta pauta"
  const MsgSessaoExpirada := "A sessão para esta pauta já expirou"
  const MsgAssociadoJaVotou := "Associado já votou nesta pauta"

  /** Default length of a voting session, in minutes, when the caller gives none. */
  const DuracaoPadraoMinutos := 1

  /** The duration is present whenever the start is: reading the window never unboxes a missing value. */
  predicate DuracaoDefinida(p: Pauta) {
    p.inicioSessao.Some? ==> p.tempoSessaoMinutos.Some?
  }

  /** Both session fields are set, or neither is. */
  predicate SessaoConsistente(p: Pauta) {
    p.inicioSessao.Some? <==> p.tempoSessaoMinutos.Some?
  }
}
