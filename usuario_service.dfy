/**
 * The record service (`UsuarioService`): payload normalisation and local
 * validation for create and update, the lookups and the in-memory filter
 * over the fetched list, the status-only update, and the display
 * formatters. Every HTTP request is an entry in the returned `Call`'s
 * `requests`; the reply to it is a parameter.
 */
module UsuarioService {
  import opened JsText
  import opened ClienteApi

  const Ativo: string := "Ativo"
  const ErroObrigatorios: string := "Nome, email e CPF são obrigatórios"
  const ErroCpfTamanho: string := "CPF deve ter 11 dígitos"
  const ErroNaoEncontrado: string := "Cliente não encontrado"

  /** A birth date as a caller may give it: a string, or a JavaScript `Date`
      known by what its `toISOString()` returns. */
  datatype DateValue = DateText(text: string) | DateObject(isoString: string)

  /** `new Date(text).toISOString()`, or `None` when the date is invalid. */
  type DateParser = string -> Option<string>

  predicate DateTruthy(d: Option<DateValue>) {
    d.Some? && d.value != DateText("")
  }

  /** A record as the UI hands it over, with each field under its lower-case
      or its capitalised key (or both, or neither). */
  datatype UsuarioInput = UsuarioInput(
    nome: Option<string>, Nome: Option<string>,
    email: Option<string>, Email: Option<string>,
    cpf: Option<string>, CPF: Option<string>,
    status: Option<string>, Status: Option<string>,
    dataNascimento: Option<DateValue>, DataNascimento: Option<DateValue>)

  function Relay<T>(reply: Reply<T>): Result<T> {
    match reply
    case Ok(d) => Success(d)
    case Fail(f) => Failure(Remote(f))
  }

  // ---------------------------------------------------------------- reads

  /** `getAllUsuarios` */
  function GetAllUsuarios(reply: Reply<seq<Cliente>>): (c: Call<seq<Cliente>>)
    ensures c.requests == [GetAll]
    ensures reply.Ok? ==> c.result == Success(reply.data)
    ensures reply.Fail? ==> c.result == Failure(Remote(reply.failure))
  {
    Call([GetAll], Relay(reply))
  }

  /** `getUsuarioById` */
  function GetUsuarioById(id: int, reply: Reply<Cliente>): (c: Call<Cliente>)
    ensures c.requests == [GetById(id)]
    ensures reply.Ok? ==> c.result == Success(reply.data)
    ensures reply.Fail? ==> c.result == Failure(Remote(reply.failure))
  {
    Call([GetById(id)], Relay(reply))
  }

  /** The index of the element `Array.prototype.find` returns: the first
      index whose record satisfies `p`. */
  function FindIndex(s: seq<Cliente>, p: Cliente -> bool): (r: Option<nat>)
    ensures r.Some? ==> r.value < |s| && p(s[r.value])
    ensures r.Some? ==> forall j :: 0 <= j < r.value ==> !p(s[j])
    ensures r.None? ==> forall j :: 0 <= j < |s| ==> !p(s[j])
  {
    if s == [] then None
    else if p(s[0]) then Some(0)
    else
      match FindIndex(s[1..], p)
      case None => None
      case Some(i) => Some(i + 1)
  }

  /** `getUsuarioByCpf`: fetch the whole list, then the first record whose
      stored `cpf` equals the query stripped of non-digits. */
  function GetUsuarioByCpf(cpf: string, reply: Reply<seq<Cliente>>): (c: Call<Cliente>)
    ensures c.requests == [GetAll]
    ensures reply.Fail? ==> c.result == Failure(Remote(reply.failure))
    ensures reply.Ok? && c.result.Success? ==>
      exists i :: 0 <= i < |reply.data| && reply.data[i] == c.result.value
        && reply.data[i].cpf == StripNonDigits(cpf)
        && forall j :: 0 <= j < i ==> reply.data[j].cpf != StripNonDigits(cpf)
    ensures reply.Ok? ==>
      (c.result == Failure(Local(ErroNaoEncontrado)) <==>
       forall j :: 0 <= j < |reply.data| ==> reply.data[j].cpf != StripNonDigits(cpf))
    ensures reply.Ok? ==> c.result.Success? || c.result == Failure(Local(ErroNaoEncontrado))
  {
    match reply
    case Fail(f) => Call([GetAll], Failure(Remote(f)))
    case Ok(list) =>
      var cpfLimpo := StripNonDigits(cpf);
      match FindIndex(list, (x: Cliente) => x.cpf == cpfLimpo)
      case None => Call([GetAll], Failure(Local(ErroNaoEncontrado)))
      case Some(i) => Call([GetAll], Success(list[i]))
  }

  /** `idExcluir && ...`: `null` and `0` switch the exclusion off. */
  predicate IdTruthy(idExcluir: Option<int>) {
    idExcluir.Some? && idExcluir.value != 0
  }

  /** The predicate `checkEmailDisponivel` hands to `find`: only a record
      with exactly this email can be in the way, and without a truthy id
      every such record is. */
  predicate EmailEmUso(c: Cliente, email: string, idExcluir: Option<int>)
    ensures EmailEmUso(c, email, idExcluir) ==> c.email == email
    ensures !IdTruthy(idExcluir) ==> (EmailEmUso(c, email, idExcluir) <==> c.email == email)
  {
    c.email == email && !(IdTruthy(idExcluir) && c.id == idExcluir.value)
  }

  /** `checkEmailDisponivel`: available unless some record has exactly this
      email and is not the excluded one. */
  function CheckEmailDisponivel(email: string, idExcluir: Option<int>, reply: Reply<seq<Cliente>>)
    : (c: Call<bool>)
    ensures c.requests == [GetAll]
    ensures reply.Fail? ==> c.result == Failure(Remote(reply.failure))
    ensures reply.Ok? ==> c.result.Success?
    ensures reply.Ok? ==>
      (c.result == Success(false) <==>
       exists i :: 0 <= i < |reply.data| && reply.data[i].email == email
         && !(IdTruthy(idExcluir) && reply.data[i].id == idExcluir.value))
  {
    match reply
    case Fail(f) => Call([GetAll], Failure(Remote(f)))
    case Ok(list) =>
      var emUso := FindIndex(list, (x: Cliente) => EmailEmUso(x, email, idExcluir));
      Call([GetAll], Success(emUso.None?))
  }

  /** While editing, the record's own email does not count against it: when
      the only record carrying the email is the excluded one, it is available. */
  lemma OwnEmailIsAvailable(email: string, list: seq<Cliente>, k: int)
    requires k != 0
    requires forall i :: 0 <= i < |list| && list[i].email == email ==> list[i].id == k
    ensures CheckEmailDisponivel(email, Some(k), Ok(list)).result == Success(true)
  {
  }

  /** Without an exclusion (no id, or the falsy id 0), any record with the
      email makes it unavailable. */
  lemma EmailTakenWithoutExclusion(email: string, idExcluir: Option<int>, list: seq<Cliente>, i: nat)
    requires !IdTruthy(idExcluir)
    requires i < |list| && list[i].email == email
    ensures CheckEmailDisponivel(email, idExcluir, Ok(list)).result == Success(false)
  {
  }

  // ----------------------------------------------------------- formatting

  /** `formatarDataParaBackend` */
  function FormatarDataParaBackend(data: Option<DateValue>, parseDate: DateParser): (r: Option<string>)
    ensures !DateTruthy(data) ==> r == None
    ensures r.Some? ==> 'T' !in r.value
    ensures data.Some? && data.value.DateObject? ==> r == Some(BeforeT(data.value.isoString))
    ensures data.Some? && data.value.DateText? && data.value.text != "" ==>
      r == match parseDate(data.value.text)
           case None => None
           case Some(iso) => Some(BeforeT(iso))
  {
    if !DateTruthy(data) then None
    else
      match data.value
      case DateObject(iso) => Some(BeforeT(iso))
      case DateText(text) =>
        match parseDate(text)
        case None => None
        case Some(iso) => Some(BeforeT(iso))
  }

  /** A date string that parses to the instant whose ISO form is
      "2024-03-05T00:00:00.000Z" is sent as "2024-03-05". */
  lemma FormatarDataParaBackendExemplo(parseDate: DateParser, s: string, iso: string)
    requires s == "2024-03-05T00:00:00Z" && iso == "2024-03-05T00:00:00.000Z"
    requires parseDate(s) == Some(iso)
    ensures FormatarDataParaBackend(Some(DateText(s)), parseDate) == Some("2024-03-05")
  {
    assert iso[10] == 'T';
    assert forall i :: 0 <= i < 10 ==> iso[i] != 'T';
    BeforeTFirst(iso, 10);
    assert iso[..10] == "2024-03-05";
  }

  /** `formatarDataExibicao`: the locale formatting itself is a parameter. */
  function FormatarDataExibicao(data: string, toLocale: string -> string): (r: string)
    ensures data == "" ==> r == ""
    ensures data != "" ==> r == toLocale(data)
  {
    if data == "" then "" else toLocale(data)
  }

  /** `r` is `ddd.ddd.ddd-dd` spelled with the eleven digits `d`. */
  ghost predicate CpfMascarado(r: string, d: string)
    requires |d| == 11
  {
    && |r| == 14
    && r[3] == '.' && r[7] == '.' && r[11] == '-'
    && (forall i :: 0 <= i < 3 ==> r[i] == d[i])
    && (forall i :: 4 <= i < 7 ==> r[i] == d[i - 1])
    && (forall i :: 8 <= i < 11 ==> r[i] == d[i - 2])
    && (forall i :: 12 <= i < 14 ==> r[i] == d[i - 3])
  }

  function Mascara(d: string): string
    requires |d| == 11
  {
    d[..3] + "." + d[3..6] + "." + d[6..9] + "-" + d[9..]
  }

  /** `formatarCPF` */
  function FormatarCPF(cpf: string): (r: string)
    ensures cpf == "" ==> r == ""
    ensures cpf != "" && |StripNonDigits(cpf)| != 11 ==> r == cpf
    ensures cpf != "" && |StripNonDigits(cpf)| == 11 ==> CpfMascarado(r, StripNonDigits(cpf))
  {
    if cpf == "" then ""
    else
      var cpfLimpo := StripNonDigits(cpf);
      if |cpfLimpo| != 11 then cpf else Mascara(cpfLimpo)
  }

  lemma StripMascara(d: string)
    requires |d| == 11 && AllDigits(d)
    ensures StripNonDigits(Mascara(d)) == d
  {
    var a, b, c, e := d[..3], d[3..6], d[6..9], d[9..];
    StripNonDigitsOfDigits(a);
    StripNonDigitsOfDigits(b);
    StripNonDigitsOfDigits(c);
    StripNonDigitsOfDigits(e);
    assert StripNonDigits(".") == "" && StripNonDigits("-") == "";
    StripNonDigitsAppend(a, ".");
    StripNonDigitsAppend(a + ".", b);
    StripNonDigitsAppend(a + "." + b, ".");
    StripNonDigitsAppend(a + "." + b + ".", c);
    StripNonDigitsAppend(a + "." + b + "." + c, "-");
    StripNonDigitsAppend(a + "." + b + "." + c + "-", e);
    assert a + b + c + e == d;
  }

  /** Stripping the display form gives back the digits of the input, on
      every input (formatted, left unchanged, or empty). */
  lemma FormatarCPFRoundTrip(cpf: string)
    ensures StripNonDigits(FormatarCPF(cpf)) == StripNonDigits(cpf)
  {
    var d := StripNonDigits(cpf);
    if cpf != "" && |d| == 11 {
      StripMascara(d);
    }
  }

  /** Formatting a formatted CPF changes nothing. */
  lemma FormatarCPFIdempotent(cpf: string)
    ensures FormatarCPF(FormatarCPF(cpf)) == FormatarCPF(cpf)
  {
    var d := StripNonDigits(cpf);
    if cpf != "" && |d| == 11 {
      StripMascara(d);
      assert FormatarCPF(cpf) != "";
    }
  }

  /** The record created by the list page is displayed as "987.654.321-00". */
  lemma FormatarCPFExemplo(cpf: string)
    requires cpf == "98765432100"
    ensures FormatarCPF(cpf) == "987.654.321-00"
  {
    StripNonDigitsOfDigits(cpf);
  }

  // ------------------------------------------------- create and update

  /** `usuario.status || usuario.Status || 'Ativo'` */
  function StatusOuPadrao(u: UsuarioInput): string {
    if Truthy(u.status) then u.status.value
    else if Truthy(u.Status) then u.Status.value
    else Ativo
  }

  function DataInformada(u: UsuarioInput): Option<DateValue> {
    if DateTruthy(u.dataNascimento) then u.dataNascimento else u.DataNascimento
  }

  /** `usuario.cpf || usuario.CPF || ''`, the CPF text `createUsuario` strips. */
  function CpfInformado(u: UsuarioInput): string {
    if Truthy(u.cpf) then u.cpf.value
    else if Truthy(u.CPF) then u.CPF.value
    else ""
  }

  /** The payload `createUsuario` builds: it always carries a CPF of digits
      only, a non-empty status, and a date without a time part. */
  function NormalizarCriacao(u: UsuarioInput, parseDate: DateParser): (p: Payload)
    ensures p.cpf.Some? && AllDigits(p.cpf.value)
    ensures p.status != ""
    ensures p.dataNascimento.Some? ==> 'T' !in p.dataNascimento.value
    ensures !DateTruthy(u.dataNascimento) && !DateTruthy(u.DataNascimento) ==> p.dataNascimento == None
  {
    Payload(
      Or(u.nome, u.Nome),
      Or(u.email, u.Email),
      Some(StripNonDigits(CpfInformado(u))),
      StatusOuPadrao(u),
      FormatarDataParaBackend(DataInformada(u), parseDate))
  }

  /** The payload `updateUsuario` builds; its CPF is `undefined` when neither
      key gives one. */
  function NormalizarAtualizacao(u: UsuarioInput, parseDate: DateParser): (p: Payload)
    ensures p.cpf.Some? ==> AllDigits(p.cpf.value)
    ensures p.cpf == None <==> !Truthy(u.cpf) && u.CPF == None
    ensures p.status != ""
    ensures p.dataNascimento.Some? ==> 'T' !in p.dataNascimento.value
  {
    Payload(
      Or(u.nome, u.Nome),
      Or(u.email, u.Email),
      if Truthy(u.cpf) then Some(StripNonDigits(u.cpf.value))
      else if u.CPF.Some? then Some(StripNonDigits(u.CPF.value))
      else None,
      StatusOuPadrao(u),
      FormatarDataParaBackend(DataInformada(u), parseDate))
  }

  /** The two validation steps, in the order `createUsuario` and
      `updateUsuario` run them; `None` lets the request through. */
  function Validar(p: Payload): (r: Option<string>)
    ensures r == None <==> Truthy(p.nome) && Truthy(p.email) && p.cpf.Some? && |p.cpf.value| == 11
    ensures r.Some? ==> r.value == ErroObrigatorios || r.value == ErroCpfTamanho
    ensures r == Some(ErroCpfTamanho) ==> Truthy(p.nome) && Truthy(p.email) && Truthy(p.cpf)
    ensures Truthy(p.nome) && Truthy(p.email) && Truthy(p.cpf) && |p.cpf.value| != 11 ==> r == Some(ErroCpfTamanho)
  {
    if !Truthy(p.nome) || !Truthy(p.email) || !Truthy(p.cpf) then Some(ErroObrigatorios)
    else if |p.cpf.value| != 11 then Some(ErroCpfTamanho)
    else None
  }

  /** Lower-case keys win over capitalised ones, and the status falls back to
      'Ativo', in both payloads. */
  lemma PayloadPrefereMinusculas(u: UsuarioInput, parseDate: DateParser)
    ensures forall p :: p == NormalizarCriacao(u, parseDate) || p == NormalizarAtualizacao(u, parseDate) ==>
      && p.nome == (if Truthy(u.nome) then u.nome else u.Nome)
      && p.email == (if Truthy(u.email) then u.email else u.Email)
      && (Truthy(u.status) ==> p.status == u.status.value)
      && (!Truthy(u.status) && Truthy(u.Status) ==> p.status == u.Status.value)
      && (!Truthy(u.status) && !Truthy(u.Status) ==> p.status == "Ativo")
      && p.status != ""
      && (Truthy(u.cpf) ==> p.cpf == Some(StripNonDigits(u.cpf.value)))
      && (!Truthy(u.cpf) && Truthy(u.CPF) ==> p.cpf == Some(StripNonDigits(u.CPF.value)))
      && p.dataNascimento == FormatarDataParaBackend(
           if DateTruthy(u.dataNascimento) then u.dataNascimento else u.DataNascimento, parseDate)
  {
  }

  /** The payload's CPF is made of the input's digits only, all of them, in
      their order. */
  lemma CpfSoDigitos(u: UsuarioInput, parseDate: DateParser)
    ensures NormalizarCriacao(u, parseDate).cpf.Some?
    ensures var d := NormalizarCriacao(u, parseDate).cpf.value;
      && AllDigits(d)
      && IsSubsequence(d, CpfInformado(u))
      && forall c :: multiset(d)[c] == if IsDigit(c) then multiset(CpfInformado(u))[c] else 0
  {
    var src := CpfInformado(u);
    StripNonDigitsIsSubsequence(src);
    forall c ensures multiset(StripNonDigits(src))[c] == if IsDigit(c) then multiset(src)[c] else 0 {
      StripNonDigitsCounts(src, c);
    }
  }

  /** `updateUsuario` builds the payload `createUsuario` builds, except that
      its CPF is `undefined` rather than '' when neither key holds one; both
      validate alike. */
  lemma AtualizacaoComoCriacao(u: UsuarioInput, parseDate: DateParser)
    ensures var (a, c) := (NormalizarAtualizacao(u, parseDate), NormalizarCriacao(u, parseDate));
      && a.(cpf := c.cpf) == c
      && (a.cpf == c.cpf || (a.cpf == None && c.cpf == Some("")))
      && Validar(a) == Validar(c)
  {
  }

  /** `createUsuario`: validate locally, then POST. */
  function CreateUsuario(u: UsuarioInput, parseDate: DateParser, reply: Reply<Json>): (c: Call<Json>)
    ensures var nomeOk := Truthy(u.nome) || Truthy(u.Nome);
            var emailOk := Truthy(u.email) || Truthy(u.Email);
            var digitos := StripNonDigits(CpfInformado(u));
      && (c.requests == [] <==> !nomeOk || !emailOk || |digitos| != 11)
      && (!nomeOk || !emailOk || digitos == "" ==> c.result == Failure(Local(ErroObrigatorios)))
      && (nomeOk && emailOk && digitos != "" && |digitos| != 11 ==> c.result == Failure(Local(ErroCpfTamanho)))
      && (c.requests != [] ==>
            && c.requests == [Post(NormalizarCriacao(u, parseDate))]
            && c.result == Relay(reply))
  {
    var p := NormalizarCriacao(u, parseDate);
    match Validar(p)
    case Some(erro) => Call([], Failure(Local(erro)))
    case None => Call([Post(p)], Relay(reply))
  }

  /** `updateUsuario`: validate locally, then PUT. */
  function UpdateUsuario(id: int, u: UsuarioInput, parseDate: DateParser, reply: Reply<Json>): (c: Call<Json>)
    ensures var nomeOk := Truthy(u.nome) || Truthy(u.Nome);
            var emailOk := Truthy(u.email) || Truthy(u.Email);
            var digitos := StripNonDigits(CpfInformado(u));
      && (c.requests == [] <==> !nomeOk || !emailOk || |digitos| != 11)
      && (!nomeOk || !emailOk || digitos == "" ==> c.result == Failure(Local(ErroObrigatorios)))
      && (nomeOk && emailOk && digitos != "" && |digitos| != 11 ==> c.result == Failure(Local(ErroCpfTamanho)))
      && (c.requests != [] ==>
            && c.requests == [Put(id, NormalizarAtualizacao(u, parseDate))]
            && c.result == Relay(reply))
  {
    var p := NormalizarAtualizacao(u, parseDate);
    AtualizacaoComoCriacao(u, parseDate);
    match Validar(p)
    case Some(erro) => Call([], Failure(Local(erro)))
    case None => Call([Put(id, p)], Relay(reply))
  }

  /** Every request body that create or update sends carries an 11-digit CPF
      and a non-empty name, email and status. */
  lemma PayloadEnviadoValido(id: int, u: UsuarioInput, parseDate: DateParser, reply: Reply<Json>)
    ensures forall r :: r in CreateUsuario(u, parseDate, reply).requests + UpdateUsuario(id, u, parseDate, reply).requests ==>
      (r.Post? || r.Put?)
      && Truthy(r.body.nome) && Truthy(r.body.email) && r.body.status != ""
      && r.body.cpf.Some? && |r.body.cpf.value| == 11 && AllDigits(r.body.cpf.value)
  {
    PayloadPrefereMinusculas(u, parseDate);
    AtualizacaoComoCriacao(u, parseDate);
  }

  // ------------------------------------------------- delete and status

  const SucessoPadrao: Json := JObject(map["success" := JBool(true)])

  /** `deleteUsuario`: an empty reply body becomes `{ success: true }`. */
  function DeleteUsuario(id: int, reply: Reply<Json>): (c: Call<Json>)
    ensures c.requests == [Delete(id)]
    ensures reply.Fail? ==> c.result == Failure(Remote(reply.failure))
    ensures reply.Ok? ==> c.result.Success? && JsonTruthy(c.result.value)
    ensures reply.Ok? && JsonTruthy(reply.data) ==> c.result == Success(reply.data)
    ensures reply.Ok? && !JsonTruthy(reply.data) ==> c.result == Success(SucessoPadrao)
  {
    match reply
    case Fail(f) => Call([Delete(id)], Failure(Remote(f)))
    case Ok(d) => Call([Delete(id)], Success(if JsonTruthy(d) then d else SucessoPadrao))
  }

  /** `alterarStatusUsuario`: read the record, then PUT it back with only the
      status replaced. No local validation runs on this path. */
  function AlterarStatusUsuario(id: int, status: string, getReply: Reply<Cliente>, putReply: Reply<Json>)
    : (c: Call<Json>)
    ensures getReply.Fail? ==> c.requests == [GetById(id)] && c.result == Failure(Remote(getReply.failure))
    ensures getReply.Ok? ==>
      var atual := getReply.data;
      && |c.requests| == 2 && c.requests[0] == GetById(id) && c.requests[1].Put?
      && c.requests[1].id == id
      && c.requests[1].body.status == status
      && c.requests[1].body.nome == Some(atual.nome)
      && c.requests[1].body.email == Some(atual.email)
      && c.requests[1].body.cpf == Some(atual.cpf)
      && c.requests[1].body.dataNascimento == Some(BeforeT(atual.dataNascimento))
      && c.result == Relay(putReply)
  {
    var lida := GetUsuarioById(id, getReply);
    match lida.result
    case Failure(e) => Call(lida.requests, Failure(e))
    case Success(atual) =>
      var dados := Payload(Some(atual.nome), Some(atual.email), Some(atual.cpf), status,
                           Some(BeforeT(atual.dataNascimento)));
      Call(lida.requests + [Put(id, dados)], Relay(putReply))
  }

  /** The record written back as an update input, under lower-case keys. */
  function ComoEntrada(c: Cliente, status: string): UsuarioInput {
    UsuarioInput(Some(c.nome), None, Some(c.email), None, Some(c.cpf), None,
                 Some(status), None, Some(DateText(c.dataNascimento)), None)
  }

  /** On a well-formed stored record (name and email present, an 11-digit
      CPF), changing the status sends the very PUT that `updateUsuario` sends
      for that record with the new status, as long as the date parser keeps
      the date part and the new status is non-empty. */
  lemma AlterarStatusComoAtualizacao(id: int, status: string, atual: Cliente,
                                     parseDate: DateParser, putReply: Reply<Json>)
    requires atual.nome != "" && atual.email != "" && status != ""
    requires |atual.cpf| == 11 && AllDigits(atual.cpf)
    requires atual.dataNascimento != ""
    requires parseDate(atual.dataNascimento).Some?
    requires BeforeT(parseDate(atual.dataNascimento).value) == BeforeT(atual.dataNascimento)
    ensures AlterarStatusUsuario(id, status, Ok(atual), putReply).requests[1..]
         == UpdateUsuario(id, ComoEntrada(atual, status), parseDate, putReply).requests
  {
    StripNonDigitsOfDigits(atual.cpf);
  }

  // ------------------------------------------------------------ filtering

  /** The criteria of `buscarComFiltros`; an absent criterion is ''. */
  datatype Filtros = Filtros(nome: string, status: string, email: string)

  const SemFiltros: Filtros := Filtros("", "", "")

  /** A record passes every non-empty criterion: name and email by
      case-insensitive substring, status by exact equality. */
  predicate Atende(c: Cliente, f: Filtros)
    ensures f == SemFiltros ==> Atende(c, f)
    ensures Atende(c, f) && f.status != "" ==> c.status == f.status
  {
    && (f.nome == "" || Includes(ToLower(c.nome), ToLower(f.nome)))
    && (f.status == "" || c.status == f.status)
    && (f.email == "" || Includes(ToLower(c.email), ToLower(f.email)))
  }

  /** The records of `s` that pass `f`, in their order. */
  function Selecionar(s: seq<Cliente>, f: Filtros): (r: seq<Cliente>)
    ensures |r| <= |s|
    ensures forall c :: c in r <==> c in s && Atende(c, f)
  {
    if s == [] then []
    else
      var last := s[|s| - 1];
      Selecionar(s[..|s| - 1], f) + (if Atende(last, f) then [last] else [])
  }

  /** Every passing record is kept as often as it occurs, and no other
      record survives. */
  lemma {:induction false} SelecionarCounts(s: seq<Cliente>, f: Filtros, c: Cliente)
    ensures multiset(Selecionar(s, f))[c] == if Atende(c, f) then multiset(s)[c] else 0
  {
    if s != [] {
      var s' := s[..|s| - 1];
      var last := s[|s| - 1];
      SelecionarCounts(s', f, c);
      assert s == s' + [last];
      assert multiset(s) == multiset(s') + multiset([last]);
    }
  }

  lemma {:induction false} SelecionarIsSubsequence(s: seq<Cliente>, f: Filtros)
    ensures IsSubsequence(Selecionar(s, f), s)
  {
    if s != [] {
      var s' := s[..|s| - 1];
      SelecionarIsSubsequence(s', f);
      var r := Selecionar(s, f);
      if Atende(s[|s| - 1], f) {
        assert r == Selecionar(s', f) + [s[|s| - 1]];
        assert r[..|r| - 1] == Selecionar(s', f);
        assert r[|r| - 1] == s[|s| - 1];
        assert IsSubsequence(r[..|r| - 1], s[..|s| - 1]);
      } else {
        assert r == Selecionar(s', f);
      }
    }
  }

  /** With no criterion the whole list comes back. */
  lemma {:induction false} SelecionarSemFiltros(s: seq<Cliente>)
    ensures Selecionar(s, SemFiltros) == s
  {
    if s != [] {
      SelecionarSemFiltros(s[..|s| - 1]);
    }
  }

  /** Two criteria sets that constrain different fields. */
  predicate Disjuntos(f: Filtros, g: Filtros) {
    (f.nome == "" || g.nome == "") && (f.status == "" || g.status == "") && (f.email == "" || g.email == "")
  }

  function Juntar(f: Filtros, g: Filtros): Filtros {
    Filtros(if f.nome != "" then f.nome else g.nome,
            if f.status != "" then f.status else g.status,
            if f.email != "" then f.email else g.email)
  }

  lemma AtendeJuntar(c: Cliente, f: Filtros, g: Filtros)
    requires Disjuntos(f, g)
    ensures Atende(c, Juntar(f, g)) <==> Atende(c, f) && Atende(c, g)
  {
  }

  lemma SelecionarSnoc(s: seq<Cliente>, x: Cliente, f: Filtros)
    ensures Selecionar(s + [x], f) == Selecionar(s, f) + (if Atende(x, f) then [x] else [])
  {
    assert (s + [x])[..|s + [x]| - 1] == s;
  }

  /** Filtering twice is filtering once by both criteria sets. */
  lemma {:induction false} SelecionarDuasVezes(s: seq<Cliente>, f: Filtros, g: Filtros)
    requires Disjuntos(f, g)
    ensures Selecionar(Selecionar(s, f), g) == Selecionar(s, Juntar(f, g))
  {
    if s != [] {
      var s' := s[..|s| - 1];
      var x := s[|s| - 1];
      assert s == s' + [x];
      SelecionarDuasVezes(s', f, g);
      AtendeJuntar(x, f, g);
      SelecionarSnoc(s', x, f);
      SelecionarSnoc(s', x, Juntar(f, g));
      var j := Juntar(f, g);
      assert Selecionar(s, j) == Selecionar(s', j) + (if Atende(x, j) then [x] else []);
      if Atende(x, f) {
        assert Selecionar(s, f) == Selecionar(s', f) + [x];
        SelecionarSnoc(Selecionar(s', f), x, g);
      } else {
        assert Selecionar(s, f) == Selecionar(s', f);
      }
    }
  }

  /** A status criterion is exact: "Inativo" keeps exactly the records whose
      status is "Inativo". */
  lemma FiltroStatusExato(s: seq<Cliente>, status: string)
    requires status != ""
    ensures forall c :: c in Selecionar(s, Filtros("", status, "")) <==> c in s && c.status == status
  {
  }

  /** The name and email criteria ignore case, on the criterion's side and
      on the record's side alike. */
  lemma AtendeIgnoraCaixa(c: Cliente, f: Filtros)
    ensures Atende(c, f) <==> Atende(c, Filtros(ToLower(f.nome), f.status, ToLower(f.email)))
    ensures Atende(c, f) <==> Atende(c.(nome := ToLower(c.nome), email := ToLower(c.email)), f)
  {
    ToLowerIdempotent(f.nome);
    ToLowerIdempotent(f.email);
    ToLowerIdempotent(c.nome);
    ToLowerIdempotent(c.email);
  }

  /** Criteria that differ only in the case of their name and email give the
      same verdict. */
  lemma AtendeSemCaixa(c: Cliente, f: Filtros, g: Filtros)
    requires IgualSemCaixa(f.nome, g.nome) && IgualSemCaixa(f.email, g.email)
    requires f.status == g.status
    ensures Atende(c, f) <==> Atende(c, g)
  {
    ToLowerIgnoraCaixa(f.nome, g.nome);
    ToLowerIgnoraCaixa(f.email, g.email);
  }

  /** The name criterion ignores case: "MARIA" finds "Maria Silva". */
  lemma FiltroNomeIgnoraCaixa(c: Cliente)
    requires c.nome == "Maria Silva"
    ensures Atende(c, Filtros("MARIA", "", ""))
  {
    assert ToLower("MARIA") == "maria";
    assert ToLower("Maria Silva")[..5] == "maria";
  }

  /** One `clientes.filter(...)` pass. */
  method Filtrar(s: seq<Cliente>, g: Filtros) returns (r: seq<Cliente>)
    ensures r == Selecionar(s, g)
  {
    r := [];
    var i := 0;
    while i < |s|
      invariant 0 <= i <= |s|
      invariant r == Selecionar(s[..i], g)
    {
      assert s[..i + 1][..i] == s[..i];
      if Atende(s[i], g) {
        r := r + [s[i]];
      }
      i := i + 1;
    }
    assert s[..|s|] == s;
  }

  /** `buscarComFiltros`: fetch the list and run up to three filter passes,
      one per non-empty criterion. */
  method BuscarComFiltros(filtros: Filtros, reply: Reply<seq<Cliente>>) returns (c: Call<seq<Cliente>>)
    ensures c.requests == [GetAll]
    ensures reply.Fail? ==> c.result == Failure(Remote(reply.failure))
    ensures reply.Ok? ==> c.result == Success(Selecionar(reply.data, filtros))
  {
    if reply.Fail? {
      return Call([GetAll], Failure(Remote(reply.failure)));
    }
    var todos := reply.data;
    var clientes := todos;
    SelecionarSemFiltros(todos);
    ghost var aplicado := SemFiltros;

    if filtros.nome != "" {
      clientes := Filtrar(clientes, Filtros(filtros.nome, "", ""));
    }
    aplicado := Filtros(filtros.nome, "", "");
    assert clientes == Selecionar(todos, aplicado);

    if filtros.status != "" {
      var g := Filtros("", filtros.status, "");
      clientes := Filtrar(clientes, g);
      SelecionarDuasVezes(todos, aplicado, g);
    }
    aplicado := Filtros(filtros.nome, filtros.status, "");
    assert clientes == Selecionar(todos, aplicado);

    if filtros.email != "" {
      var g := Filtros("", "", filtros.email);
      clientes := Filtrar(clientes, g);
      SelecionarDuasVezes(todos, aplicado, g);
    }
    assert filtros == Filtros(filtros.nome, filtros.status, filtros.email);
    return Call([GetAll], Success(clientes));
  }
}
