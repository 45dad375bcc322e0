/**
 * Scenarios: client methods that call the services in sequence on a fresh store, following
 * the integration and service tests. Each postcondition follows from the operations' contracts and, for the
 * read-only functions, their definitions.
 */
module Cenarios {
  import opened Entidades
  import opened Repositorio
  import opened PautaService
  import opened VotoService

  /** Register, open with the default window, vote as member "1", vote again: the repeat conflicts. */
  method CenarioVotoDuplicado(now: int) returns (primeiro: Result<Voto>, segundo: Result<Voto>)
    ensures primeiro.Ok? && primeiro.value.associadoId == "1" && primeiro.value.tipoVoto == Some(Sim)
    ensures segundo == Err(Conflict(MsgAssociadoJaVotou))
  {
    var db := new Banco();
    var pauta := CadastrarPauta(db, "Pauta de teste");
    var sessao := AbrirSessao(db, pauta.id, None, now);
    primeiro := RegistrarVoto(db, VotoDto(pauta.id, "1", Some(Sim)), now);
    assert db.votos[0].pautaId == pauta.id && db.votos[0].associadoId == "1";
    segundo := RegistrarVoto(db, VotoDto(pauta.id, "1", Some(Sim)), now);
  }

  /** Opening a session on an id nobody registered is NotFound, not Conflict. */
  method CenarioAbrirSessaoInexistente(now: int) returns (r: Result<Pauta>)
    ensures r == Err(NotFound(MsgPautaNaoEncontrada))
  {
    var db := new Banco();
    var pauta := CadastrarPauta(db, "Pauta de teste");
    r := AbrirSessao(db, 9999, None, now);
  }

  /** Opening a session twice: the first succeeds with the given window, the second conflicts. */
  method CenarioSessaoAbertaDuasVezes(now: int, depois: int) returns (primeira: Result<Pauta>, segunda: Result<Pauta>)
    ensures primeira.Ok? && primeira.value.inicioSessao == Some(now) && primeira.value.tempoSessaoMinutos == Some(1)
    ensures segunda == Err(Conflict(MsgSessaoJaAberta))
  {
    var db := new Banco();
    var pauta := CadastrarPauta(db, "Descrição da pauta");
    primeira := AbrirSessao(db, pauta.id, Some(1), now);
    segunda := AbrirSessao(db, pauta.id, Some(1), depois);
  }

  /** A ballot cast after the default one-minute window has passed is rejected as expired. */
  method CenarioSessaoExpirada(inicio: int, depois: int) returns (r: Result<Voto>)
    requires depois > inicio + 1
    ensures r == Err(SessaoExpirada(MsgSessaoExpirada))
  {
    var db := new Banco();
    var pauta := CadastrarPauta(db, "Pauta de teste");
    var sessao := AbrirSessao(db, pauta.id, None, inicio);
    r := RegistrarVoto(db, VotoDto(pauta.id, "1", Some(Sim)), depois);
  }

  /**
   * A tally of an item nobody voted on is NotFound. The tests tally an item without a session;
   * the second tally, after the session is opened, is this model's addition.
   */
  method CenarioContagemSemVotos(now: int) returns (semSessao: Result<ResultadoVotacao>, comSessao: Result<ResultadoVotacao>)
    ensures semSessao == Err(NotFound(MsgNenhumVoto))
    ensures comSessao == Err(NotFound(MsgNenhumVoto))
  {
    var db := new Banco();
    var pauta := CadastrarPauta(db, "Pauta de teste");
    semSessao := ContarVotos(db.pautas, db.votos, pauta.id);
    var sessao := AbrirSessao(db, pauta.id, None, now);
    comSessao := ContarVotos(db.pautas, db.votos, pauta.id);
  }

  /** Member "1" votes SIM and member "2" votes NAO: the tally is SIM = 1, NAO = 1. */
  method CenarioContagem(now: int) returns (r: Result<ResultadoVotacao>)
    ensures r == Ok(ResultadoVotacao("Pauta de teste", 1, 1))
  {
    var db := new Banco();
    var pauta := CadastrarPauta(db, "Pauta de teste");
    var sessao := AbrirSessao(db, pauta.id, None, now);
    var v1 := RegistrarVoto(db, VotoDto(pauta.id, "1", Some(Sim)), now);
    assert v1 == Ok(Voto(1, pauta.id, "1", Some(Sim)));
    assert "1" != "2";
    var v2 := RegistrarVoto(db, VotoDto(pauta.id, "2", Some(Nao)), now);
    assert v2 == Ok(Voto(2, pauta.id, "2", Some(Nao)));
    var votos := db.votos;
    assert votos == [v1.value, v2.value];
    assert votos[1..] == [v2.value] && votos[1..][1..] == [];
    assert DaPauta(votos, pauta.id) == votos;
    assert ContarVotosPorTipo(votos, Sim) == 1 && ContarVotosPorTipo(votos, Nao) == 1;
    r := ContarVotos(db.pautas, votos, pauta.id);
  }

  /** A registered item is found by its id and listed. */
  method CenarioBuscarEListar() returns (encontrada: Result<Pauta>, lista: seq<Pauta>)
    ensures encontrada.Ok? && encontrada.value.descricao == "Pauta de teste"
    ensures encontrada.value in lista
  {
    var db := new Banco();
    var pauta := CadastrarPauta(db, "Pauta de teste");
    encontrada := BuscarPautaPorId(db.pautas, pauta.id);
    lista := ListarPautas(db.pautas, db.proximoId);
  }

  /** A ballot whose input carries no choice is stored, and the tally counts it under neither. */
  method CenarioVotoSemEscolha(now: int) returns (voto: Result<Voto>, r: Result<ResultadoVotacao>)
    ensures voto.Ok? && voto.value.tipoVoto == None
    ensures r == Ok(ResultadoVotacao("Pauta de teste", 0, 0))
  {
    var db := new Banco();
    var pauta := CadastrarPauta(db, "Pauta de teste");
    var sessao := AbrirSessao(db, pauta.id, None, now);
    voto := RegistrarVoto(db, VotoDto(pauta.id, "1", None), now);
    var votos := db.votos;
    assert votos == [voto.value] && votos[1..] == [];
    assert DaPauta(votos, pauta.id) == votos;
    r := ContarVotos(db.pautas, votos, pauta.id);
  }
}
