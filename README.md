# Customer registry client: record service and list page

A model, in Dafny, of the two pieces of the customer ("cliente") registry
client that carry logic. The rest of the client is REST plumbing around them.

- **The record service** (`UsuarioService`). It turns UI-shaped records into
  backend payloads:
  - lower-case keys win over capitalised ones;
  - the CPF (the 11-digit Brazilian taxpayer number) is stripped of
    non-digits;
  - the status defaults to `Ativo`;
  - the date of birth is parsed and sent as the date part of its ISO form.

  It checks each payload locally before the POST of create and the PUT of
  update. The service also
  finds a record by CPF, checks whether an email is free, filters the list in
  memory, changes only the status of a record, treats an empty DELETE reply
  as success, and formats a CPF for display.
- **The list page** (`UsuarioList`). It has five state cells: `clientes`,
  `loading`, `error`, `editandoId` and the edit buffer `clienteEditado`. Its
  handlers load the list, enter and leave edit mode, edit one buffer field,
  save, create the test record, and delete after a confirmation.

Files and modules:

- `js_text.dfy` (`JsText`): the JavaScript string behaviour the code relies
  on. This covers truthiness, `replace(/\D/g, '')`, ASCII `toLowerCase`,
  `includes` and `split('T')[0]`.
- `cliente_api.dfy` (`ClienteApi`): the types of the REST contract. These
  are the record, the request body, the requests, the replies, and a `Call`.
  A `Call` holds the requests one service operation issued, in order, and its
  result or error.
- `usuario_service.dfy` (`UsuarioService`): the service operations and their
  lemmas.
- `usuario_list.dfy` (`UsuarioListPage`): the page as a class. The class has
  the five state cells and two ghost logs. One log holds the HTTP requests
  the page caused; the other holds the alerts it showed. Three scenario
  methods at the end compose whole sessions that are verified against the
  class contracts.

How the outside world is modelled:

- The reply to each HTTP request is a parameter (`Reply<T>`).
- A local rejection is a `Call` whose `requests` is empty.
- Parsing a date string with `new Date(...)` is a parameter
  (`DateParser`).
- `toLocaleDateString('pt-BR')` is a parameter too.
- The answer to `window.confirm` is a boolean parameter.
- `alert` appends to the page's `alerts` log.

The "new test client" button submits one fixed record (`Maria Silva`, CPF
`98765432100`).

## Model

| member | source | states |
|---|---|---|
| `JsText.StripNonDigits` | react_js_example/src/services/usuarioService.js:33 | `replace(/\D/g, '')` returns only digits and is never longer than its input |
| `JsText.StripNonDigitsIsSubsequence` | react_js_example/src/services/usuarioService.js:62 | the stripped CPF is a subsequence of the input: its characters keep their order |
| `JsText.StripNonDigitsCounts` | react_js_example/src/services/usuarioService.js:101 | every digit keeps its number of occurrences; every non-digit is removed |
| `JsText.StripNonDigitsOfDigits` | react_js_example/src/services/usuarioService.js:155 | a string of digits only comes back unchanged |
| `JsText.StripNonDigitsAppend` | react_js_example/src/services/usuarioService.js:155 | stripping distributes over concatenation |
| `JsText.StripNonDigitsIdempotent` | react_js_example/src/services/usuarioService.js:155 | stripping twice is the same as stripping once |
| `JsText.IncludesAt` | react_js_example/src/services/usuarioService.js:199 | `includes` holds exactly when the needle occurs at some index of the haystack (both directions) |
| `JsText.ToLower` | react_js_example/src/services/usuarioService.js:209 | `toLowerCase` keeps the length of the string, turns every ASCII capital into its own lower-case letter, and keeps every other character in place |
| `JsText.ToLowerIgnoraCaixa` | react_js_example/src/services/usuarioService.js:199 | two strings lower-case to the same text exactly when they differ only in the case of ASCII letters |
| `JsText.ToLowerIdempotent` | react_js_example/src/services/usuarioService.js:199 | lower-casing a lower-cased string changes nothing |
| `JsText.BeforeT` | react_js_example/src/pages/UsuarioList.jsx:43 | `split('T')[0]` is a prefix with no `'T'` in it, cut exactly at the first `'T'` when there is one |
| `JsText.BeforeTFirst` | react_js_example/src/services/usuarioService.js:179 | when `'T'` first appears at index k, `split('T')[0]` is the first k characters |
| `UsuarioService.GetAllUsuarios` | react_js_example/src/services/usuarioService.js:5-13 | one `GET /Clientes`; its data or its failure is passed on unchanged |
| `UsuarioService.GetUsuarioById` | react_js_example/src/services/usuarioService.js:16-24 | one `GET /Clientes/{id}`; its data or its failure is passed on unchanged |
| `UsuarioService.CreateUsuario` | react_js_example/src/services/usuarioService.js:27-53 | no POST is sent exactly when the name, the email or an 11-digit stripped CPF is missing; missing fields give the "obrigatórios" error, which takes precedence; a bad length gives the "11 dígitos" error; otherwise exactly one POST of the normalised payload is sent, and a transport failure is passed on |
| `UsuarioService.NormalizarCriacao` | react_js_example/src/services/usuarioService.js:30-36 | the create payload always carries a CPF of digits only, a non-empty status, and a birth date without a time part, or none when neither date key is truthy |
| `UsuarioService.NormalizarAtualizacao` | react_js_example/src/services/usuarioService.js:59-65 | the update payload's CPF, when present, is digits only, and it is absent exactly when `cpf` is falsy and `CPF` is missing; the status is never empty |
| `UsuarioService.Validar` | react_js_example/src/services/usuarioService.js:39-45 | the payload passes exactly when name and email are truthy and the CPF has 11 characters; the only errors are the "obrigatórios" and the "11 dígitos" messages, and the second comes exactly when all three fields are present and the CPF length is not 11 |
| `UsuarioService.PayloadPrefereMinusculas` | react_js_example/src/services/usuarioService.js:30-36 | in both payloads a truthy lower-case key wins over the capitalised one, for name, email, status, CPF and birth date; the status falls back to `Ativo` and is never empty |
| `UsuarioService.CpfSoDigitos` | react_js_example/src/services/usuarioService.js:33 | the payload CPF is made of digits only; it is a subsequence of the given CPF and keeps every digit of it |
| `UsuarioService.PayloadEnviadoValido` | react_js_example/src/services/usuarioService.js:39-47 | every body that create or update sends has a non-empty name, email and status and an 11-digit CPF |
| `UsuarioService.UpdateUsuario` | react_js_example/src/services/usuarioService.js:56-82 | the same local rejection rules and error order as create; otherwise exactly one `PUT /Clientes/{id}` of the update payload |
| `UsuarioService.AtualizacaoComoCriacao` | react_js_example/src/services/usuarioService.js:59-65 | the update payload equals the create payload, except that its CPF is `undefined` instead of `''` when neither key gives one; both payloads pass or fail validation alike |
| `UsuarioService.DeleteUsuario` | react_js_example/src/services/usuarioService.js:85-93 | one DELETE; a falsy reply body becomes `{ success: true }`; a truthy one is returned as it is; so a successful result is always truthy |
| `UsuarioService.FindIndex` | react_js_example/src/services/usuarioService.js:102 | `find` gives the first index whose record satisfies the predicate, or reports that no record does |
| `UsuarioService.GetUsuarioByCpf` | react_js_example/src/services/usuarioService.js:96-113 | one `GET /Clientes`, then the first record whose stored CPF equals the stripped query; "Cliente não encontrado" exactly when no record matches |
| `UsuarioService.EmailEmUso` | react_js_example/src/services/usuarioService.js:120-124 | only a record with exactly the email can be in the way; without a truthy id, every such record is |
| `UsuarioService.CheckEmailDisponivel` | react_js_example/src/services/usuarioService.js:116-131 | one `GET /Clientes`; the email is unavailable exactly when some record has the same email and is not the excluded one; the exclusion applies only to a truthy id |
| `UsuarioService.OwnEmailIsAvailable` | react_js_example/src/services/usuarioService.js:120-126 | when only the excluded record (non-zero id) carries the email, the email is available |
| `UsuarioService.EmailTakenWithoutExclusion` | react_js_example/src/services/usuarioService.js:122 | with no id, or the falsy id 0, any record with the email makes it unavailable |
| `UsuarioService.FormatarDataParaBackend` | react_js_example/src/services/usuarioService.js:134-150 | a falsy input gives `null`; a `Date` gives the date part of its ISO string; a string gives the date part of its parse, or `null` when it does not parse; no result contains a `'T'` |
| `UsuarioService.FormatarDataParaBackendExemplo` | react_js_example/src/services/usuarioService.js:141-146 | "2024-03-05T00:00:00Z", which parses to the ISO form "2024-03-05T00:00:00.000Z", is sent as "2024-03-05" |
| `UsuarioService.FormatarCPF` | react_js_example/src/services/usuarioService.js:153-158 | `''` gives `''`; an input whose digits do not number 11 is returned unchanged; otherwise the result is `ddd.ddd.ddd-dd` spelled with those digits, 14 characters long |
| `UsuarioService.FormatarCPFRoundTrip` | react_js_example/src/services/usuarioService.js:155-157 | stripping the formatted CPF gives back the digits of the input, on every input |
| `UsuarioService.FormatarCPFIdempotent` | react_js_example/src/services/usuarioService.js:153-157 | formatting a formatted CPF changes nothing |
| `UsuarioService.StripMascara` | react_js_example/src/services/usuarioService.js:157 | stripping `ddd.ddd.ddd-dd` gives back the 11 digits |
| `UsuarioService.FormatarCPFExemplo` | react_js_example/src/pages/UsuarioList.jsx:186 | the test record's CPF is displayed as "987.654.321-00" |
| `UsuarioService.FormatarDataExibicao` | react_js_example/src/services/usuarioService.js:161-165 | a falsy date is displayed as `''`; any other date goes to the locale formatter |
| `UsuarioService.AlterarStatusUsuario` | react_js_example/src/services/usuarioService.js:168-188 | first `GET /Clientes/{id}`; when it fails, nothing more is sent; otherwise one PUT with the stored name, email and CPF, the date part of the stored birth date, and the new status |
| `UsuarioService.AlterarStatusComoAtualizacao` | react_js_example/src/services/usuarioService.js:174-182 | for a well-formed stored record and a non-empty new status, when parsing the stored birth date keeps its date part, the status PUT is the request `updateUsuario` sends for that record with the new status |
| `UsuarioService.Atende` | react_js_example/src/services/usuarioService.js:197-211 | empty criteria let every record through; a status criterion admits only records with exactly that status |
| `UsuarioService.AtendeSemCaixa` | react_js_example/src/services/usuarioService.js:197-211 | criteria whose name and email differ only in case, with the same status, give the same verdict on every record |
| `UsuarioService.AtendeIgnoraCaixa` | react_js_example/src/services/usuarioService.js:199 | the name and email criteria ignore case, both in the criterion and in the record |
| `UsuarioService.Selecionar` | react_js_example/src/services/usuarioService.js:196-211 | the filtered list has exactly the records that pass every non-empty criterion, and it is no longer than the list |
| `UsuarioService.SelecionarCounts` | react_js_example/src/services/usuarioService.js:198-210 | every passing record is kept as many times as it occurs; no other record survives |
| `UsuarioService.SelecionarIsSubsequence` | react_js_example/src/services/usuarioService.js:194-213 | the filtered list keeps the order of the fetched list |
| `UsuarioService.SelecionarSemFiltros` | react_js_example/src/services/usuarioService.js:197-211 | with all criteria empty, the whole list comes back |
| `UsuarioService.AtendeJuntar` | react_js_example/src/services/usuarioService.js:197-211 | passing criteria that constrain different fields at once is passing each set in turn |
| `UsuarioService.SelecionarSnoc` | react_js_example/src/services/usuarioService.js:198 | filtering a list with one more record at the end adds that record at the end exactly when it passes |
| `UsuarioService.SelecionarDuasVezes` | react_js_example/src/services/usuarioService.js:197-205 | two successive filter passes on different fields equal one pass with both criteria |
| `UsuarioService.FiltroStatusExato` | react_js_example/src/services/usuarioService.js:203-205 | a status criterion keeps exactly the records whose status is equal to it |
| `UsuarioService.FiltroNomeIgnoraCaixa` | react_js_example/src/services/usuarioService.js:197-201 | the name criterion ignores case: "MARIA" finds "Maria Silva" |
| `UsuarioService.Filtrar` | react_js_example/src/services/usuarioService.js:198-200 | one `filter` pass returns the selection of its input by its criterion |
| `UsuarioService.BuscarComFiltros` | react_js_example/src/services/usuarioService.js:191-218 | one `GET /Clientes`; up to three successive passes give exactly the selection of the fetched list by all the criteria; a transport failure is passed on |
| `UsuarioListPage.NovoClienteValido` | react_js_example/src/pages/UsuarioList.jsx:79-87 | the fixed test record passes local validation; creating it always sends one POST with CPF `98765432100` |
| `UsuarioListPage.AlertaErro` | react_js_example/src/pages/UsuarioList.jsx:65 | the alert reads `Erro: ` followed by the error's message, or by the handler's fallback text when the message is empty |
| `UsuarioListPage.EntradaDoBuffer` | react_js_example/src/pages/UsuarioList.jsx:60 | a buffer holding the five edit fields hands `updateUsuario` every lower-case field |
| `UsuarioListPage.UsuarioList.EmEdicao` | react_js_example/src/pages/UsuarioList.jsx:144 | a row is in edit mode only when `editandoId` is its id |
| `UsuarioListPage.UsuarioList.UmaLinhaEmEdicao` | react_js_example/src/pages/UsuarioList.jsx:144 | at most one row is in edit mode at a time |
| `UsuarioListPage.UsuarioList.TelaAtual` | react_js_example/src/pages/UsuarioList.jsx:107-108 | the loading text wins over the error text, which wins over the table; the table shows the row in edit mode |
| `UsuarioListPage.UsuarioList.constructor` | react_js_example/src/pages/UsuarioList.jsx:6-16 | initially: an empty list, `loading` true, no error, no row in edit mode, the buffer `{'', '', '', 'Ativo', ''}` |
| `UsuarioListPage.UsuarioList.CarregarClientes` | react_js_example/src/pages/UsuarioList.jsx:22-34 | one `GET /Clientes`; on success the list is replaced and the error cleared; on failure the list is kept and the error message set; `loading` is false afterwards either way; the edit state is untouched |
| `UsuarioListPage.UsuarioList.IniciarEdicao` | react_js_example/src/pages/UsuarioList.jsx:36-45 | exactly the chosen row is in edit mode; the buffer holds its name, email, CPF and status verbatim, and its birth date up to the first `'T'`; nothing is sent |
| `UsuarioListPage.UsuarioList.CancelarEdicao` | react_js_example/src/pages/UsuarioList.jsx:47-56 | no row is in edit mode; the buffer is reset to its defaults; the list is untouched; nothing is sent |
| `UsuarioListPage.UsuarioList.HandleInputChange` | react_js_example/src/pages/UsuarioList.jsx:69-75 | only the named buffer field changes; every other key and value stays as it was |
| `UsuarioListPage.UsuarioList.SalvarEdicao` | react_js_example/src/pages/UsuarioList.jsx:58-67 | a failed update (local or remote) leaves the edit mode, the buffer and the list as they were, triggers no reload, and shows an error alert; a successful one reloads and then leaves edit mode |
| `UsuarioListPage.UsuarioList.HandleCriarCliente` | react_js_example/src/pages/UsuarioList.jsx:77-93 | posts the fixed record; on success reloads and shows a success alert; on failure shows an error alert and changes nothing else |
| `UsuarioListPage.UsuarioList.HandleExcluir` | react_js_example/src/pages/UsuarioList.jsx:95-105 | a declined confirmation changes no state at all and issues no request; a confirmed one sends one DELETE and then reloads after a success |

## Left out

- The transport wrapper (`api/apiClient.js`) is not part of this model. This
  covers the axios setup, the token header, the redirect on 401 and the
  logging. Its only effect the model keeps is that a failure reaches the
  service unchanged (`Reply.Fail`).
- `App.js`, the JSX markup and the CSS are layout. Rendering is kept only as
  the page's phase (`TelaAtual`) and the rule that a row is in edit mode iff
  `editandoId == id` (`EmEdicao`).
- Date parsing by `new Date(...)` and `toLocaleDateString('pt-BR')` depend on
  the JavaScript runtime. Both are parameters. An invalid `Date` object,
  whose `toISOString` throws, is not modelled.
- Async/await, promise interleaving and unmounting during a request are not
  modelled. Handlers run one after another, and each reply is a parameter.
- `console.log` and `console.error` are not modelled. `alert` is only recorded
  in a ghost log, and `confirm` is a parameter.
- `toLowerCase` is modelled for ASCII letters only.
- Fields that hold non-string values (numbers, objects) in a UI record are
  not modelled. So is the `TypeError` that `replace` or `split` would throw
  on them. Every record from the backend is assumed to have all its string
  fields.
- UsuarioService.AlterarStatusComoAtualizacao: the two paths are proved to agree only under its hypotheses. `alterarStatusUsuario` cuts the stored birth date at `'T'`, while `updateUsuario` parses it and takes the date part of its UTC ISO form, so the two can differ by a day depending on the time zone. An empty new status is sent as `''` by the status path and as `Ativo` by `updateUsuario`.
- UsuarioService.CheckEmailDisponivel: `idExcluir` is `null` or a number. A
  string id read through `parseInt` is not modelled.
- The mount effect is not modelled as a separate step. The constructor gives
  the state before the first load, and the first load is a
  `CarregarClientes` call.
- React's batching of state updates is left out. The intermediate
  `loading = true` render inside a handler is not kept either: each handler
  is observed only once it has finished.
