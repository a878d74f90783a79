/**
 * The list page (`UsuarioList`): five state cells and the handlers that
 * change them. Every service reply, and the answer to the confirmation
 * dialog, is a parameter of the handler that waits for it; handlers run
 * one after another. Two ghost logs record what the page caused outside
 * itself: the HTTP requests its service calls issued and the alerts it showed.
 */
module UsuarioListPage {
  import opened JsText
  import opened ClienteApi
  import opened UsuarioService

  const ErroCarregar: string := "Erro ao carregar clientes. Verifique se o backend está rodando."
  const MsgAtualizado: string := "Cliente atualizado com sucesso!"
  const MsgCriado: string := "Cliente criado com sucesso!"
  const MsgExcluido: string := "Cliente excluído com sucesso!"
  const FalhaAtualizar: string := "Não foi possível atualizar o cliente"
  const FalhaCriar: string := "Não foi possível criar o cliente"
  const FalhaExcluir: string := "Não foi possível excluir o cliente"

  /** The keys of the edit buffer; every input of the edit row carries one. */
  const CamposBuffer: set<string> := {"nome", "email", "cpf", "status", "dataNascimento"}

  /** The buffer's value when nothing is being edited. */
  const BufferVazio: map<string, string> :=
    map["nome" := "", "email" := "", "cpf" := "", "status" := "Ativo", "dataNascimento" := ""]

  /** `Erro: ${err.message || padrao}`: the error's own message when it has
      one, the handler's fallback text otherwise. */
  function AlertaErro(e: ServiceError, padrao: string): (r: string)
    ensures |r| >= 6 && r[..6] == "Erro: "
    ensures e.Message() != "" ==> r[6..] == e.Message()
    ensures e.Message() == "" ==> r[6..] == padrao
  {
    "Erro: " + (if e.Message() != "" then e.Message() else padrao)
  }

  function Campo(m: map<string, string>, k: string): Option<string> {
    if k in m then Some(m[k]) else None
  }

  /** The buffer object as `updateUsuario` reads it: a buffer holding the
      five fields the edit row binds gives every lower-case field. */
  function EntradaDoBuffer(m: map<string, string>): (u: UsuarioInput)
    ensures CamposBuffer <= m.Keys ==>
      && u.nome == Some(m["nome"]) && u.email == Some(m["email"]) && u.cpf == Some(m["cpf"])
      && u.status == Some(m["status"]) && u.dataNascimento == Some(DateText(m["dataNascimento"]))
  {
    UsuarioInput(
      Campo(m, "nome"), Campo(m, "Nome"),
      Campo(m, "email"), Campo(m, "Email"),
      Campo(m, "cpf"), Campo(m, "CPF"),
      Campo(m, "status"), Campo(m, "Status"),
      if "dataNascimento" in m then Some(DateText(m["dataNascimento"])) else None,
      if "DataNascimento" in m then Some(DateText(m["DataNascimento"])) else None)
  }

  /** The fixed record the "new test client" button submits. */
  const NovoCliente: UsuarioInput :=
    UsuarioInput(Some("Maria Silva"), None, Some("maria@email.com"), None,
                 Some("98765432100"), None, Some("Ativo"), None,
                 Some(DateText("1985-05-15")), None)

  /** The fixed record passes the service's local validation, so creating it
      always sends one POST, with the CPF as given. */
  lemma NovoClienteValido(parseDate: DateParser, reply: Reply<Json>)
    ensures Validar(NormalizarCriacao(NovoCliente, parseDate)) == None
    ensures CreateUsuario(NovoCliente, parseDate, reply).requests == [Post(NormalizarCriacao(NovoCliente, parseDate))]
    ensures NormalizarCriacao(NovoCliente, parseDate).cpf == Some("98765432100")
  {
    StripNonDigitsOfDigits("98765432100");
  }

  /** What the page shows: the loading text, the error text, or the table
      with at most one row in edit mode. */
  datatype Tela = Carregando | Falha(mensagem: string) | Tabela(linhaEmEdicao: Option<int>)

  class UsuarioList {
    var clientes: seq<Cliente>
    var loading: bool
    var error: Option<string>
    var editandoId: Option<int>
    var clienteEditado: map<string, string>

    /** Every request the page's service calls issued, in order. */
    ghost var requests: seq<Request>
    /** Every alert the page showed, in order. */
    ghost var alerts: seq<string>

    /** The edit buffer always holds the five fields the edit row binds. */
    ghost predicate Valid()
      reads this
    {
      CamposBuffer <= clienteEditado.Keys
    }

    /** Row `id` renders its inputs instead of its values; at most one row
        does at a time. */
    predicate EmEdicao(id: int)
      reads this
      ensures EmEdicao(id) ==> editandoId.Some? && editandoId.value == id
    {
      editandoId == Some(id)
    }

    lemma UmaLinhaEmEdicao(a: int, b: int)
      requires EmEdicao(a) && EmEdicao(b)
      ensures a == b
    {
    }

    /** The loading text wins over the error text, which wins over the table. */
    function TelaAtual(): (t: Tela)
      reads this
      ensures loading ==> t == Carregando
      ensures !loading && error.Some? ==> t == Falha(error.value)
      ensures t.Tabela? ==> !loading && error == None && t.linhaEmEdicao == editandoId
    {
      if loading then Carregando
      else if error.Some? then Falha(error.value)
      else Tabela(editandoId)
    }

    /** The state on mount, before the first load finishes. */
    constructor ()
      ensures Valid()
      ensures clientes == [] && loading && error == None && editandoId == None
      ensures clienteEditado == BufferVazio
      ensures TelaAtual() == Carregando
      ensures requests == [] && alerts == []
    {
      clientes := [];
      loading := true;
      error := None;
      editandoId := None;
      clienteEditado := BufferVazio;
      requests := [];
      alerts := [];
    }

    /** `carregarClientes` */
    method CarregarClientes(reply: Reply<seq<Cliente>>)
      requires Valid()
      modifies this
      ensures Valid()
      ensures !loading
      ensures reply.Ok? ==> clientes == reply.data && error == None && TelaAtual() == Tabela(editandoId)
      ensures reply.Fail? ==> clientes == old(clientes) && error == Some(ErroCarregar)
      ensures reply.Fail? ==> TelaAtual() == Falha(ErroCarregar)
      ensures editandoId == old(editandoId) && clienteEditado == old(clienteEditado)
      ensures requests == old(requests) + [GetAll] && alerts == old(alerts)
    {
      loading := true;
      error := None;
      var call := GetAllUsuarios(reply);
      requests := requests + call.requests;
      match call.result {
        case Success(data) => clientes := data;
        case Failure(_) => error := Some(ErroCarregar);
      }
      loading := false;
    }

    /** `iniciarEdicao` */
    method IniciarEdicao(cliente: Cliente)
      requires Valid()
      modifies this
      ensures Valid()
      ensures editandoId == Some(cliente.id)
      ensures forall id :: EmEdicao(id) <==> id == cliente.id
      ensures clienteEditado.Keys == CamposBuffer
      ensures clienteEditado["nome"] == cliente.nome && clienteEditado["email"] == cliente.email
      ensures clienteEditado["cpf"] == cliente.cpf && clienteEditado["status"] == cliente.status
      ensures clienteEditado["dataNascimento"] == BeforeT(cliente.dataNascimento)
      ensures clientes == old(clientes) && loading == old(loading) && error == old(error)
      ensures requests == old(requests) && alerts == old(alerts)
    {
      editandoId := Some(cliente.id);
      clienteEditado := map[
        "nome" := cliente.nome,
        "email" := cliente.email,
        "cpf" := cliente.cpf,
        "status" := cliente.status,
        "dataNascimento" := BeforeT(cliente.dataNascimento)];
    }

    /** `cancelarEdicao` */
    method CancelarEdicao()
      requires Valid()
      modifies this
      ensures Valid()
      ensures editandoId == None && forall id :: !EmEdicao(id)
      ensures clienteEditado == BufferVazio
      ensures clientes == old(clientes) && loading == old(loading) && error == old(error)
      ensures requests == old(requests) && alerts == old(alerts)
    {
      editandoId := None;
      clienteEditado := BufferVazio;
    }

    /** `handleInputChange`: `{ ...clienteEditado, [name]: value }` */
    method HandleInputChange(name: string, value: string)
      requires Valid()
      modifies this
      ensures Valid()
      ensures name in clienteEditado && clienteEditado[name] == value
      ensures forall k :: k != name ==> (k in clienteEditado <==> k in old(clienteEditado))
      ensures forall k :: k != name && k in clienteEditado ==> clienteEditado[k] == old(clienteEditado)[k]
      ensures clientes == old(clientes) && loading == old(loading) && error == old(error)
      ensures editandoId == old(editandoId)
      ensures requests == old(requests) && alerts == old(alerts)
    {
      clienteEditado := clienteEditado[name := value];
    }

    /** `salvarEdicao`: update, then reload and leave edit mode; on any
        failure of the update, stay in edit mode with the buffer as it was. */
    method SalvarEdicao(id: int, parseDate: DateParser, putReply: Reply<Json>, getReply: Reply<seq<Cliente>>)
      requires Valid()
      modifies this
      ensures Valid()
      ensures clienteEditado == old(clienteEditado)
      ensures var call := UpdateUsuario(id, EntradaDoBuffer(old(clienteEditado)), parseDate, putReply);
        && (call.result.Failure? ==>
              && editandoId == old(editandoId)
              && clientes == old(clientes) && loading == old(loading) && error == old(error)
              && requests == old(requests) + call.requests
              && alerts == old(alerts) + [AlertaErro(call.result.error, FalhaAtualizar)])
        && (call.result.Success? ==>
              && editandoId == None
              && !loading
              && (getReply.Ok? ==> clientes == getReply.data && error == None)
              && (getReply.Fail? ==> clientes == old(clientes) && error == Some(ErroCarregar))
              && requests == old(requests) + call.requests + [GetAll]
              && alerts == old(alerts) + [MsgAtualizado])
    {
      var call := UpdateUsuario(id, EntradaDoBuffer(clienteEditado), parseDate, putReply);
      requests := requests + call.requests;
      match call.result {
        case Success(_) =>
          CarregarClientes(getReply);
          editandoId := None;
          alerts := alerts + [MsgAtualizado];
        case Failure(e) =>
          alerts := alerts + [AlertaErro(e, FalhaAtualizar)];
      }
    }

    /** `handleCriarCliente`: submit the fixed record, reload on success. */
    method HandleCriarCliente(parseDate: DateParser, postReply: Reply<Json>, getReply: Reply<seq<Cliente>>)
      requires Valid()
      modifies this
      ensures Valid()
      ensures editandoId == old(editandoId) && clienteEditado == old(clienteEditado)
      ensures postReply.Ok? ==>
        && requests == old(requests) + [Post(NormalizarCriacao(NovoCliente, parseDate)), GetAll]
        && !loading
        && (getReply.Ok? ==> clientes == getReply.data && error == None)
        && (getReply.Fail? ==> clientes == old(clientes) && error == Some(ErroCarregar))
        && alerts == old(alerts) + [MsgCriado]
      ensures postReply.Fail? ==>
        && requests == old(requests) + [Post(NormalizarCriacao(NovoCliente, parseDate))]
        && clientes == old(clientes) && loading == old(loading) && error == old(error)
        && alerts == old(alerts) + [AlertaErro(Remote(postReply.failure), FalhaCriar)]
    {
      NovoClienteValido(parseDate, postReply);
      var call := CreateUsuario(NovoCliente, parseDate, postReply);
      requests := requests + call.requests;
      match call.result {
        case Success(_) =>
          CarregarClientes(getReply);
          alerts := alerts + [MsgCriado];
        case Failure(e) =>
          alerts := alerts + [AlertaErro(e, FalhaCriar)];
      }
    }

    /** `handleExcluir`: nothing at all happens unless the user confirms. */
    method HandleExcluir(id: int, confirmado: bool, deleteReply: Reply<Json>, getReply: Reply<seq<Cliente>>)
      requires Valid()
      modifies this
      ensures Valid()
      ensures !confirmado ==> unchanged(this)
      ensures editandoId == old(editandoId) && clienteEditado == old(clienteEditado)
      ensures confirmado && deleteReply.Ok? ==>
        && requests == old(requests) + [Delete(id), GetAll]
        && !loading
        && (getReply.Ok? ==> clientes == getReply.data && error == None)
        && (getReply.Fail? ==> clientes == old(clientes) && error == Some(ErroCarregar))
        && alerts == old(alerts) + [MsgExcluido]
      ensures confirmado && deleteReply.Fail? ==>
        && requests == old(requests) + [Delete(id)]
        && clientes == old(clientes) && loading == old(loading) && error == old(error)
        && alerts == old(alerts) + [AlertaErro(Remote(deleteReply.failure), FalhaExcluir)]
    {
      if confirmado {
        var call := DeleteUsuario(id, deleteReply);
        requests := requests + call.requests;
        match call.result {
          case Success(_) =>
            CarregarClientes(getReply);
            alerts := alerts + [MsgExcluido];
          case Failure(e) =>
            alerts := alerts + [AlertaErro(e, FalhaExcluir)];
        }
      }
    }
  }

  /** A session: mount, load, edit a row, type a 10-digit CPF, save. The
      update is refused locally: no PUT leaves the page, the row stays in
      edit mode and the buffer keeps what was typed. */
  method CenarioCpfCurto(cliente: Cliente, lista: seq<Cliente>, parseDate: DateParser,
                         putReply: Reply<Json>, getReply: Reply<seq<Cliente>>)
  {
    var page := new UsuarioList();
    page.CarregarClientes(Ok(lista));
    page.IniciarEdicao(cliente);
    page.HandleInputChange("cpf", "1234567890");
    ghost var buffer := page.clienteEditado;
    page.SalvarEdicao(cliente.id, parseDate, putReply, getReply);
    assert page.requests == [GetAll];
    assert page.EmEdicao(cliente.id);
    assert page.clienteEditado == buffer && page.clienteEditado["cpf"] == "1234567890";
  }

  /** A session: declining the confirmation issues no DELETE and leaves the
      list as it was. */
  method CenarioExcluirSemConfirmar(lista: seq<Cliente>, id: int, deleteReply: Reply<Json>,
                                    getReply: Reply<seq<Cliente>>)
  {
    var page := new UsuarioList();
    page.CarregarClientes(Ok(lista));
    page.HandleExcluir(id, false, deleteReply, getReply);
    assert page.requests == [GetAll];
    assert page.clientes == lista;
  }

  /** A session: creating the test record and reloading a list that holds it
      shows its CPF as "987.654.321-00". */
  method CenarioCriarMaria(parseDate: DateParser, criado: Json, lista: seq<Cliente>, k: nat)
    requires k < |lista| && lista[k].nome == "Maria Silva" && lista[k].cpf == "98765432100"
  {
    var page := new UsuarioList();
    page.CarregarClientes(Ok([]));
    page.HandleCriarCliente(parseDate, Ok(criado), Ok(lista));
    NovoClienteValido(parseDate, Ok(criado));
    assert page.requests[1].Post? && page.requests[1].body.cpf == Some("98765432100");
    assert page.clientes[k].nome == "Maria Silva";
    FormatarCPFExemplo(page.clientes[k].cpf);
  }
}
