# Class scheduling and monthly billing: a verified model

The app keeps two module-level lists: `alunos`, the registered students
(`Nome`, `Pacote`, `Valor`), and `aulas`, the booked class sessions (`Nome`,
`Data`, `Hora`). `cadastrar_aluno` and `agendar_aula` append one record each,
with no validation. `gerar_relatorio(nome, mes)` selects the sessions of
`nome` whose date starts with the month prefix `mes`, multiplies their number
by the price of the *first* student registered under `nome` (it raises when
there is none), and writes a document of one title line, one line per
selected session and one total line.

The model has two modules:

- `Agendamento` (`agendamento.dfy`): the records `Aluno` and `Aula`; the
  selection `AlunoAulas`, the first-match price `ValorDe`, the total
  `TotalValor` and the report `Relatorio` as functions; the module-level
  lists as the class `Registry`, whose methods append to its `seq` fields and
  whose `GerarRelatorio` lays out the lines in a loop, as the source does, and
  is proved to produce `Relatorio`.
- `Decimal` (`decimal.dfy`): how the total is written into its line, with
  the inverse reading that shows the written digits mean the total.

Modelling choices:

- Prices (`Valor`) are non-negative integers (cents); `Pacote` is any integer,
  since neither append function checks it.
- `Data` and `Hora` are opaque strings, as they are stored after `str()`.
  "starts with `mes`" is the sequence prefix test `mes <= data`; an empty
  `mes` selects every session of the student, as `startswith("")` does.
- The `IndexError` raised by `[...][0]` when no student has the name is the
  `Err(IndexError)` result of `Relatorio`, not a precondition. In that case no
  document is produced.
- Billing is per session: the total is `len(aluno_aulas) * valor` (line 20).
  `TotalValorAgendar` and `TotalValorFiveSessions` state this.
- `mes` is matched as a prefix of the stored `str(date)` text, which has the
  form `AAAA-MM-DD`; the report form asks for `AAAA-MM` (line 62).
- The report is a title line, one line per selected session and a total line
  (lines 26-32).

## Model

| member | source | states |
|---|---|---|
| `Agendamento.Registry.constructor` | agendamento_app.py:6-7 | both lists start empty |
| `Agendamento.Registry.CadastrarAluno` | agendamento_app.py:10-11 | `alunos` grows by exactly the record (nome, pacote, valor) at the end; `aulas` is unchanged; nothing is validated |
| `Agendamento.Registry.AgendarAula` | agendamento_app.py:14-15 | `aulas` grows by exactly the record (nome, data, hora) at the end; `alunos` is unchanged; the name need not be registered |
| `Agendamento.Registry.GerarRelatorio` | agendamento_app.py:18-32 | the loop that emits one cell per selected session yields exactly the report `Relatorio` describes, or the error when nobody has the name |
| `Agendamento.AlunoAulas` | agendamento_app.py:19 | the selection is no longer than the schedule, and each selected session is in the schedule with the requested name and a date starting with the month prefix |
| `Agendamento.AlunoAulasExact` | agendamento_app.py:19 | a session is selected if and only if it is scheduled and matches; each matching session is kept as many times as it was booked, and nothing else is kept |
| `Agendamento.AlunoAulasSubsequence` | agendamento_app.py:19 | the selection is a subsequence of the schedule, so booking order is kept |
| `Agendamento.AlunoAulasConcat` | agendamento_app.py:19 | selecting from a concatenated schedule gives the concatenation of the two selections |
| `Agendamento.AlunoAulasSnoc` | agendamento_app.py:15-19 | booking one more session adds it to the end of the selection exactly when it matches; a session of another student changes nothing |
| `Agendamento.AlunoAulasAllMatch` | agendamento_app.py:19 | a schedule whose sessions all match is selected whole |
| `Agendamento.AlunoAulasNoneMatch` | agendamento_app.py:19 | a schedule with no matching session selects nothing |
| `Agendamento.AlunoAulasIdempotent` | agendamento_app.py:19 | filtering the selection again with the same name and month returns it unchanged |
| `Agendamento.MonthFilterExample` | agendamento_app.py:19 | for "Ana" with sessions on 2024-01-05, 2024-02-10 and 2024-01-20, month "2024-01" selects the first and the third, in that order |
| `Agendamento.ValorDe` | agendamento_app.py:20 | a price exists if and only if some student has the name, and it is the price of the first such student |
| `Agendamento.ValorDeIgnoresLater` | agendamento_app.py:10-11 | once a name is registered, later registrations (duplicates included) do not change its price |
| `Agendamento.TotalValor` | agendamento_app.py:20 | the total is undefined exactly when no student has the name; otherwise it is the number of selected sessions times the first student's price |
| `Agendamento.TotalValorNoSessions` | agendamento_app.py:20 | a registered student with no matching session in the month is billed 0 |
| `Agendamento.TotalValorAgendar` | agendamento_app.py:15-20 | each matching booked session adds the first registered price once to the total; any other booking adds nothing |
| `Agendamento.TotalValorFiveSessions` | agendamento_app.py:20 | a student registered at 100.00 with five sessions in the month is billed 500.00, not a flat package price |
| `Agendamento.Relatorio` | agendamento_app.py:18-32 | no report is produced if and only if no student has the requested name |
| `Agendamento.RelatorioLayout` | agendamento_app.py:26-32 | a produced report has exactly 2 + n lines for n selected sessions: the title "Relatório de Aulas - " + nome, then "Data: <Data>, Hora: <Hora>" for each session in booking order, then "Valor Total Mensal: R$" + the total |
| `Agendamento.RelatorioTotalReadBack` | agendamento_app.py:20-32 | the digits after "R$" on the last line denote the number of selected sessions times the first registered price |
| `Agendamento.RelatorioOtherBooking` | agendamento_app.py:14-20 | a session booked for another student leaves the report for the name unchanged, including the error when nobody has the name |
| `Agendamento.RelatorioLaterRegistration` | agendamento_app.py:10-20 | once the name is registered, any later registration leaves its report unchanged |
| `Decimal.NatToString` | agendamento_app.py:32 | the total is written as at least one decimal digit, with no leading zero unless it is 0 |
| `Decimal.ValueOfNatToString` | agendamento_app.py:32 | reading the written digits back gives the total they were written from |
| `Decimal.NatToStringInjective` | agendamento_app.py:32 | different totals are written differently |

## Left out

- The Streamlit interface (lines 37-66): text, number, date and time inputs, buttons, select boxes and success messages. The widgets' lower bounds (`min_value=1`, `min_value=0.0`) belong to the inputs, not to the functions. Only the `nat` type of a price reflects them.
- The pandas tables of students and sessions (lines 69-73): display through a foreign library.
- FPDF rendering (lines 22-34): page creation, fonts, cell sizes and alignment, and writing `Relatorio_<nome>_<mes>.pdf` to disk. Only the sequence of line texts is modelled. The failures of that rendering are not modelled either: text outside Latin-1 in a name, date or time makes the core Arial font raise, and a `nome` or `mes` containing `/` breaks the file name at line 34; the model returns `Ok` in both cases.
- The conversion of date and time objects to text (line 56): `Data` and `Hora` are taken as the strings already stored.
- Decimal.NatToString: writes an integer number of cents in decimal. The source multiplies a float price and prints Python's float text (for example `150.0`). Float arithmetic and its formatting are not modelled.
- Agendamento.Registry: stands for one execution of the script. Streamlit re-executes the whole file on every widget interaction, so lines 6-7 re-create both lists empty on each rerun, and one run performs at most one of the calls at lines 46, 56 and 65. State across reruns is not modelled, so the model does not capture that a report run starts with no registered student.
- Persistence and name validation: the code has neither.
