# coopvote: agenda items, voting sessions and ballots

A Dafny model of the business rules of the coopvote cooperative-assembly service.
Members register agenda items (*pautas*). Each item gets one time-boxed voting session.
Members cast one ballot (*voto*) each: SIM, NAO, or no choice at all. The tally counts them.

The model has five modules, one file each:

- `Entidades` (`entidades.dfy`) holds the entities `Pauta`, `Voto` and `VotoDto`, the choice
  `TipoVoto`, the three failures (`NotFound`, `Conflict`, `SessaoExpirada`) with the source's
  messages, and the `Result`/`Outcome` wrappers for "value or exception".
- `Repositorio` (`repositorio.dfy`) holds the class `Banco`. It is an in-memory store that
  stands for both JPA repositories: a map of items by id, an identity counter, and the
  ballots in save order. The module also has `DaPauta` (`findByPauta`), `ExisteVoto`
  (`existsByPautaAndAssociadoId`) and `UmVotoPorAssociado`, which allows at most one ballot
  per (item, member). That is part of the store's invariant `Banco.Valid()`.
- `PautaService` (`pauta_service.dfy`) covers registering, lookup, listing, the expiry
  predicate, opening a session, and the tally.
- `VotoService` (`voto_service.dfy`) covers ballot admission.
- `Cenarios` (`cenarios.dfy`) holds scenarios: client methods that call the services in
  sequence on a fresh store, following the service and integration tests.

The three operations that change the store are methods that modify the `Banco`:
`CadastrarPauta`, `AbrirSessao` and `RegistrarVoto`. `AbrirSessao` and `RegistrarVoto` are
proved equal to pure functions of the old store, `Abertura` and `Admissao`. The lemmas about
the rules are stated on those two functions: the session opens once, the expiry check comes
before the duplicate check, uniqueness is preserved, and the tally grows by exactly one.
The read-only operations are functions over the store's contents.

Modelling choices:

- Time is an integer number of minutes. The caller passes it in as `now`.
  `LocalDateTime.plusMinutes` becomes addition, and `isAfter` becomes a strict `>`.
- Ids are `int`. The store's identity counter starts at 1. An entity that has not been saved
  yet carries id 0.
- Where the source passes the fetched `Pauta` entity, the model uses that entity's `id`:
  in the duplicate check, in the new ballot's reference, and in the item's ballot list.
- A ballot's choice is `Option<TipoVoto>`. Nothing in the source checks that the input carries
  a choice. `criarVoto` copies it as is, so a ballot without a choice (`None`) is stored, and
  the tally counts it under neither SIM nor NAO.
- A ballot on an item whose session was never opened passes the expiry check
  (`isSessaoExpirada` is false when there is no start time). It then goes on to the duplicate
  check. The model keeps this observed behaviour and adds no "session not open" rejection.
- The code puts no unique constraint on the ballot table and no conditional write on the
  session fields. It checks and then acts. The model follows the code: uniqueness holds
  because `RegistrarVoto` checks first, and calls are sequential.

## Model

| member | source | states |
|---|---|---|
| `Repositorio.DaPauta` | src/main/java/com/rocksti/coopvote/repository/VotoRepository.java:14 | an item's ballots are exactly the stored ballots that refer to it, and there are no more of them than stored ballots |
| `Repositorio.DaPautaAposInsercao` | src/main/java/com/rocksti/coopvote/repository/VotoRepository.java:14 | saving one more ballot appends it to its own item's ballot list and leaves every other item's list unchanged |
| `Repositorio.ExisteVoto` | src/main/java/com/rocksti/coopvote/repository/VotoRepository.java:12 | the existence query is true iff some stored ballot refers to the item and carries the member's id; it has no contract of its own, and `ExisteVotoSseNaPauta` relates it to the item's ballot list |
| `Repositorio.ExisteVotoSseNaPauta` | src/main/java/com/rocksti/coopvote/repository/VotoRepository.java:12-14 | the existence check is true iff the item's ballot list holds a ballot of that member |
| `Repositorio.Banco.InserirPauta` | src/main/java/com/rocksti/coopvote/service/PautaService.java:34 | saving a new item gives it the next identity value, which was unused; it adds exactly that entry and keeps the store valid |
| `Repositorio.Banco.AtualizarPauta` | src/main/java/com/rocksti/coopvote/service/PautaService.java:55 | saving a stored item overwrites only its own entry |
| `Repositorio.Banco.InserirVoto` | src/main/java/com/rocksti/coopvote/service/VotoService.java:37 | saving a ballot appends exactly that ballot, with the next id, and changes nothing else; it is called, as by the service, only when the member has no ballot on the item yet, and the store then still holds one ballot per (item, member) |
| `PautaService.BuscarPautaPorId` | src/main/java/com/rocksti/coopvote/service/PautaService.java:67-73 | succeeds exactly for a stored id, returning the stored item; any other id fails with NotFound "Pauta não encontrada" |
| `PautaService.ListarPautas` | src/main/java/com/rocksti/coopvote/service/PautaService.java:80-83 | every listed item is stored under its own id and every stored item is listed, so each item appears once, exactly as stored; the increasing-id order is the model's choice, since `findAll` fixes none |
| `PautaService.CriarNovaPauta` | src/main/java/com/rocksti/coopvote/service/PautaService.java:122-126 | builds the unsaved item from the description alone, with no session fields; it has no contract of its own, and `CadastrarPauta`'s ensures fix the stored result |
| `PautaService.CadastrarPauta` | src/main/java/com/rocksti/coopvote/service/PautaService.java:31-37 | adds exactly one item under a fresh id, with the given description and no session fields, returns it, and leaves the ballots alone |
| `PautaService.IsSessaoExpirada` | src/main/java/com/rocksti/coopvote/service/PautaService.java:111-118 | an item whose session never started is never expired, at any time |
| `PautaService.ExpiradaSseAposFim` | src/main/java/com/rocksti/coopvote/service/PautaService.java:116-117 | once started, a session is expired iff now is strictly after start plus duration: not expired at that instant, expired one minute later |
| `PautaService.ExpiracaoMonotona` | src/main/java/com/rocksti/coopvote/service/PautaService.java:111-118 | once expired, a session stays expired at every later time |
| `PautaService.ExpiracaoSoDependeDaJanela` | src/main/java/com/rocksti/coopvote/service/PautaService.java:111-118 | two items with the same stored window have the same expiry at every time, whatever their id or description |
| `PautaService.ValidarSessaoNaoAberta` | src/main/java/com/rocksti/coopvote/service/PautaService.java:128-133 | the guard against a second opening; it has no contract of its own, and its outcome is fixed by `Abertura`'s ensures: Conflict "A sessão já foi aberta para esta pauta" exactly when the stored item already has a start time |
| `PautaService.Abertura` | src/main/java/com/rocksti/coopvote/service/PautaService.java:46-58 | an unknown id gives NotFound (not Conflict); an already opened item gives Conflict; otherwise the result is the same item with start = now and duration = the given one, or 1 minute when none is given |
| `PautaService.AberturaPreservaSessoes` | src/main/java/com/rocksti/coopvote/service/PautaService.java:128-133 | after an opening attempt no item has disappeared, and every item that already had a session is unchanged |
| `PautaService.AberturaUnica` | src/main/java/com/rocksti/coopvote/service/PautaService.java:50 | after a successful opening, any further opening of that item fails with Conflict, whatever duration or time is given |
| `PautaService.SessaoRecemAbertaAtiva` | src/main/java/com/rocksti/coopvote/service/PautaService.java:52-53 | a freshly opened session is not expired from its start to the end of its window |
| `PautaService.AbrirSessao` | src/main/java/com/rocksti/coopvote/service/PautaService.java:46-58 | the result is `Abertura` of the old store; on success only the opened item's entry is replaced, on failure nothing changes; ballots always stay the same |
| `PautaService.ContarVotosPorTipo` | src/main/java/com/rocksti/coopvote/service/PautaService.java:142-146 | the count is at most the number of ballots; it is zero iff no ballot has that choice, and it is the full number iff all ballots have it; a ballot without a choice matches neither choice |
| `PautaService.ContagemExata` | src/main/java/com/rocksti/coopvote/service/PautaService.java:142-146 | the count equals the multiplicity of the choice in the multiset of ballot choices |
| `PautaService.SimMaisNaoTotal` | src/main/java/com/rocksti/coopvote/service/PautaService.java:97-98 | SIM + NAO + the ballots without a choice is the number of ballots; so SIM + NAO is at most that number, and equal to it iff every ballot has a choice |
| `PautaService.SemEscolhaCompleta` | src/main/java/com/rocksti/coopvote/service/PautaService.java:142-146 | the two choice counts and the multiplicity of "no choice" add up to the number of ballots |
| `PautaService.ContagemAposInsercao` | src/main/java/com/rocksti/coopvote/service/PautaService.java:142-146 | one more ballot raises its own choice's count by one and leaves the other count alone |
| `PautaService.ContagemExemplo` | src/test/java/com/rocksti/coopvote/service/PautaServiceTest.java:185-204 | the ballots {SIM, SIM, NAO} count as SIM = 2 and NAO = 1 |
| `PautaService.ValidarPautaComVotos` | src/main/java/com/rocksti/coopvote/service/PautaService.java:135-140 | the guard that a tally needs ballots; it has no contract of its own, and its outcome is fixed by `ContarVotos`'s ensures: NotFound "Nenhum voto registrado para esta pauta" exactly when the stored item has no ballots |
| `PautaService.ContarVotos` | src/main/java/com/rocksti/coopvote/service/PautaService.java:91-103 | an unknown id gives NotFound "Pauta não encontrada"; an item with no ballots gives NotFound "Nenhum voto registrado para esta pauta"; otherwise the result is the description with the exact SIM and NAO multiplicities of the item's ballots, which with the ballots without a choice add up to its ballot count |
| `VotoService.ValidarSessaoAtiva` | src/main/java/com/rocksti/coopvote/service/VotoService.java:44-49 | the expiry guard; it has no contract of its own, and its outcome is fixed by `Admissao`'s ensures: SessaoExpirada "A sessão para esta pauta já expirou" exactly when the found item's session has expired |
| `VotoService.ValidarAssociadoNaoVotou` | src/main/java/com/rocksti/coopvote/service/VotoService.java:51-57 | the duplicate guard; it has no contract of its own, and its outcome is fixed by `Admissao`'s ensures: Conflict "Associado já votou nesta pauta" exactly when the session is not expired and the member already has a ballot on the item |
| `VotoService.CriarVoto` | src/main/java/com/rocksti/coopvote/service/VotoService.java:59-65 | builds the unsaved ballot from the found item and the input's member and choice, copied unchecked; it has no contract of its own, and `Admissao`'s ensures fix the admitted ballot: the next id, the item's id, the member and the choice |
| `VotoService.Admissao` | src/main/java/com/rocksti/coopvote/service/VotoService.java:29-65 | an unknown item gives NotFound; otherwise an expired session gives SessaoExpirada; otherwise an existing ballot by that member gives Conflict; the ballot is admitted iff none of these holds, and the admitted ballot carries the next id, the item's id, the member and the choice |
| `VotoService.AdmissaoPreservaUnicidade` | src/main/java/com/rocksti/coopvote/service/VotoService.java:51-57 | if the ballots had at most one per (item, member) before, they still do after admission |
| `VotoService.VotoRepetidoConflita` | src/test/java/com/rocksti/coopvote/integration/VotoControllerIT.java:175-199 | after a ballot is admitted, the identical ballot fails with Conflict for as long as the session is not expired |
| `VotoService.ExpiracaoPrecedeConflito` | src/main/java/com/rocksti/coopvote/service/VotoService.java:33-34 | on an expired session a member who already voted gets SessaoExpirada, not Conflict |
| `VotoService.SemSessaoSegueParaUnicidade` | src/main/java/com/rocksti/coopvote/service/VotoService.java:33-34 | a ballot on an item whose session was never opened is never expired: it is admitted, or it fails with Conflict when the member already voted |
| `VotoService.ContagemAposAdmissao` | src/main/java/com/rocksti/coopvote/service/PautaService.java:91-103 | after an admission the item's tally succeeds and counts the new ballot exactly once, under its own choice |
| `VotoService.RegistrarVoto` | src/main/java/com/rocksti/coopvote/service/VotoService.java:29-40 | the result is `Admissao` of the old store; on success exactly that ballot is appended, on failure the ballots are unchanged; items never change, and the store invariant, which includes at most one ballot per (item, member), is kept |
| `Cenarios.CenarioVotoDuplicado` | src/test/java/com/rocksti/coopvote/integration/VotoControllerIT.java:175-199 | register, open, vote as member "1": that succeeds; the same vote again fails with Conflict |
| `Cenarios.CenarioAbrirSessaoInexistente` | src/test/java/com/rocksti/coopvote/integration/VotoControllerIT.java:91-97 | opening a session on id 9999, which was never registered, fails with NotFound |
| `Cenarios.CenarioSessaoAbertaDuasVezes` | src/test/java/com/rocksti/coopvote/service/PautaServiceTest.java:72-113 | the first opening sets start = now and duration 1; the second fails with Conflict |
| `Cenarios.CenarioSessaoExpirada` | src/test/java/com/rocksti/coopvote/service/VotoServiceTest.java:68-84 | a ballot cast more than the default minute after opening fails with SessaoExpirada |
| `Cenarios.CenarioContagemSemVotos` | src/test/java/com/rocksti/coopvote/integration/VotoControllerIT.java:203-261 | the tally of an item without ballots fails with NotFound "Nenhum voto registrado para esta pauta"; the tests tally only an item without a session, and the second tally, after opening one, is the model's addition |
| `Cenarios.CenarioContagem` | src/test/java/com/rocksti/coopvote/integration/VotoControllerIT.java:221-243 | one SIM from member "1" and one NAO from member "2" tally to SIM = 1, NAO = 1 |
| `Cenarios.CenarioVotoSemEscolha` | src/main/java/com/rocksti/coopvote/service/VotoService.java:59-65 | a ballot whose input has no choice is admitted and stored without one, and the tally of its item is SIM = 0, NAO = 0 |
| `Cenarios.CenarioBuscarEListar` | src/test/java/com/rocksti/coopvote/integration/VotoControllerIT.java:101-131 | a registered item is found by its id, with its description, and it appears in the listing |

## Left out

- Controllers (`PautaController`, `VotoController`): they only route HTTP requests and map failures to statuses 201/200/404/409. Their logging is left out too.
- Spring Data JPA: the class `Banco` stands in for the repositories. Lazy loading and the `@OneToMany`/`@ManyToOne` mappings are not modelled. `Pauta.votos` is what `DaPauta` computes from the ballot sequence.
- Logging (Log4j), Lombok builders and accessors, and Jackson annotations carry no business rule.
- Clock: `LocalDateTime.now()` becomes the `now` parameter, in whole minutes. The source compares timestamps with nanosecond precision. Long overflow and `DateTimeException` in `plusMinutes` are not modelled.
- Id width: ids and durations are unbounded integers. 64-bit `Long` overflow is not modelled.
- Concurrency: two racing `abrirSessao` calls, or two racing duplicate ballots, can both pass their check in the source, because it checks and then acts with no atomic guard. The model covers sequential calls only.
- `PautaDto` is reduced to the description it carries. `CadastrarPauta` takes that string.
- ContarVotos: returns the triple (description, SIM count, NAO count) instead of the formatted text "Resultado da votação para a pauta '%s': SIM = %d, NÃO = %d" of `formatarResultadoVotacao` (src/main/java/com/rocksti/coopvote/service/PautaService.java:148-151).
- IsSessaoExpirada: requires that an item with a start time also has a duration. An item with a start time but no duration makes the source unbox a null `Long` and throw `NullPointerException`. Such an item can only be built outside the services: `AbrirSessao` always sets both fields, and the store invariant keeps them paired.
- ListarPautas: the source returns `findAll()`, whose order no query clause fixes. The model lists the items in increasing id order, a choice of its own.
- VotoService.Admissao: takes the item id as a plain integer. In the source a null `pautaId` makes the repository proxy's `findById` throw `InvalidDataAccessApiUsageException`, which wraps the `IllegalArgumentException` of the null id and is none of the three typed failures. That path is not modelled.
- VotoService.Admissao: takes the member id as a string. A null `associadoId` is not modelled; what the derived duplicate query does with a null parameter is outside this model.
- Test files are used only as the source of the properties and scenarios above.
