/** The scheduling and billing core of the class-booking app: an append-only
    registry of students (`alunos`) and class sessions (`aulas`), and the
    monthly report for one student. */
module Agendamento {
  import Decimal

  /** A registered student: name, weekly package size and package price.
      The price is kept in integer cents. */
  datatype Aluno = Aluno(nome: string, pacote: int, valor: nat)

  /** A booked class session: student name, date and time, both kept as the
      text they were stored as. */
  datatype Aula = Aula(nome: string, data: string, hora: string)

  /** The one way report generation fails: no student has the requested name,
      so taking the first price of an empty list raises. */
  datatype Erro = IndexError

  datatype Result<T> = Ok(value: T) | Err(error: Erro)

  datatype Option<T> = None | Some(value: T)

  // ---------------------------------------------------------------------
  // Selecting a student's sessions of one month
  // ---------------------------------------------------------------------

  /** The session belongs to `nome` and its date starts with the month prefix
      `mes` (the empty prefix matches every date). */
  predicate Matches(a: Aula, nome: string, mes: string)
  {
    a.nome == nome && mes <= a.data
  }

  /** The sessions of `nome` whose date starts with `mes`, in booking order. */
  function AlunoAulas(aulas: seq<Aula>, nome: string, mes: string): (r: seq<Aula>)
    ensures |r| <= |aulas|
    ensures forall a :: a in r ==> a in aulas && Matches(a, nome, mes)
  {
    if aulas == [] then []
    else
      (if Matches(aulas[0], nome, mes) then [aulas[0]] else []) + AlunoAulas(aulas[1..], nome, mes)
  }

  /** The selection holds every matching session of the schedule as often as
      the schedule does, and nothing else. */
  lemma {:induction false} AlunoAulasExact(aulas: seq<Aula>, nome: string, mes: string)
    ensures forall a :: a in AlunoAulas(aulas, nome, mes) <==> a in aulas && Matches(a, nome, mes)
    ensures forall a :: multiset(AlunoAulas(aulas, nome, mes))[a]
                     == if Matches(a, nome, mes) then multiset(aulas)[a] else 0
    decreases |aulas|
  {
    if aulas != [] {
      AlunoAulasExact(aulas[1..], nome, mes);
      assert aulas == [aulas[0]] + aulas[1..];
    }
  }

  /** `s` can be obtained from `t` by deleting elements. */
  predicate IsSubsequence<T(==)>(s: seq<T>, t: seq<T>)
    decreases |t|
  {
    s == [] ||
    (t != [] &&
     ((s[0] == t[0] && IsSubsequence(s[1..], t[1..])) || IsSubsequence(s, t[1..])))
  }

  /** The selection keeps the relative order of the schedule. */
  lemma {:induction false} AlunoAulasSubsequence(aulas: seq<Aula>, nome: string, mes: string)
    ensures IsSubsequence(AlunoAulas(aulas, nome, mes), aulas)
    decreases |aulas|
  {
    if aulas != [] {
      AlunoAulasSubsequence(aulas[1..], nome, mes);
      var r := AlunoAulas(aulas, nome, mes);
      if Matches(aulas[0], nome, mes) {
        assert r[0] == aulas[0] && r[1..] == AlunoAulas(aulas[1..], nome, mes);
      } else {
        assert r == AlunoAulas(aulas[1..], nome, mes);
      }
    }
  }

  /** Selecting over a concatenated schedule is concatenating the selections. */
  lemma {:induction false} AlunoAulasConcat(s: seq<Aula>, t: seq<Aula>, nome: string, mes: string)
    ensures AlunoAulas(s + t, nome, mes) == AlunoAulas(s, nome, mes) + AlunoAulas(t, nome, mes)
    decreases |s|
  {
    if s == [] {
      assert s + t == t;
    } else {
      assert (s + t)[0] == s[0] && (s + t)[1..] == s[1..] + t;
      AlunoAulasConcat(s[1..], t, nome, mes);
    }
  }

  /** Booking one more session extends the selection by that session exactly
      when it matches; in particular a session of another student leaves the
      selection for `nome` unchanged. */
  lemma AlunoAulasSnoc(aulas: seq<Aula>, a: Aula, nome: string, mes: string)
    ensures AlunoAulas(aulas + [a], nome, mes)
         == AlunoAulas(aulas, nome, mes) + (if Matches(a, nome, mes) then [a] else [])
    ensures a.nome != nome ==> AlunoAulas(aulas + [a], nome, mes) == AlunoAulas(aulas, nome, mes)
  {
    AlunoAulasConcat(aulas, [a], nome, mes);
    assert [a][1..] == [];
  }

  /** A schedule all of whose sessions match is its own selection. */
  lemma {:induction false} AlunoAulasAllMatch(aulas: seq<Aula>, nome: string, mes: string)
    requires forall a :: a in aulas ==> Matches(a, nome, mes)
    ensures AlunoAulas(aulas, nome, mes) == aulas
    decreases |aulas|
  {
    if aulas != [] {
      assert aulas[0] in aulas;
      assert forall a :: a in aulas[1..] ==> a in aulas;
      AlunoAulasAllMatch(aulas[1..], nome, mes);
      assert aulas == [aulas[0]] + aulas[1..];
    }
  }

  /** Applying the same filter to its own result changes nothing. */
  lemma AlunoAulasIdempotent(aulas: seq<Aula>, nome: string, mes: string)
    ensures AlunoAulas(AlunoAulas(aulas, nome, mes), nome, mes) == AlunoAulas(aulas, nome, mes)
  {
    AlunoAulasAllMatch(AlunoAulas(aulas, nome, mes), nome, mes);
  }

  /** January 2024 for "Ana": of the sessions on 2024-01-05, 2024-02-10 and
      2024-01-20, exactly the first and the last are selected, in that order. */
  lemma MonthFilterExample()
    ensures var s1 := Aula("Ana", "2024-01-05", "10:00:00");
            var s2 := Aula("Ana", "2024-02-10", "10:00:00");
            var s3 := Aula("Ana", "2024-01-20", "10:00:00");
            AlunoAulas([s1, s2, s3], "Ana", "2024-01") == [s1, s3]
  {
    var s1 := Aula("Ana", "2024-01-05", "10:00:00");
    var s2 := Aula("Ana", "2024-02-10", "10:00:00");
    var s3 := Aula("Ana", "2024-01-20", "10:00:00");
    assert "2024-01" <= s1.data && "2024-01" <= s3.data;
    assert !("2024-01" <= s2.data) by {
      assert s2.data[6] != "2024-01"[6];
    }
    assert [s3][1..] == [];
    assert AlunoAulas([s3], "Ana", "2024-01") == [s3];
    assert [s2, s3][1..] == [s3];
    assert AlunoAulas([s2, s3], "Ana", "2024-01") == [s3];
    assert [s1, s2, s3][1..] == [s2, s3];
  }

  // ---------------------------------------------------------------------
  // The price of the first student with a given name, and the total
  // ---------------------------------------------------------------------

  /** Index `i` holds the first registration under `nome`. */
  predicate PrimeiroAluno(alunos: seq<Aluno>, nome: string, i: int)
  {
    0 <= i < |alunos| && alunos[i].nome == nome &&
    forall j :: 0 <= j < i ==> alunos[j].nome != nome
  }

  /** The price of the first student registered under `nome`, or None when
      nobody is. */
  function ValorDe(alunos: seq<Aluno>, nome: string): (r: Option<nat>)
    ensures r.Some? <==> exists i :: 0 <= i < |alunos| && alunos[i].nome == nome
    ensures r.Some? ==> exists i :: PrimeiroAluno(alunos, nome, i) && r.value == alunos[i].valor
  {
    if alunos == [] then None
    else if alunos[0].nome == nome then
      assert PrimeiroAluno(alunos, nome, 0);
      Some(alunos[0].valor)
    else
      var r := ValorDe(alunos[1..], nome);
      assert forall i :: 0 <= i < |alunos[1..]| ==> alunos[1..][i] == alunos[i + 1];
      if r.Some? then
        var i :| PrimeiroAluno(alunos[1..], nome, i) && r.value == alunos[1..][i].valor;
        assert PrimeiroAluno(alunos, nome, i + 1);
        r
      else r
  }

  /** The first registration decides the price: whatever is registered later,
      under this name or another, does not change it. */
  lemma {:induction false} ValorDeIgnoresLater(alunos: seq<Aluno>, later: seq<Aluno>, nome: string)
    requires ValorDe(alunos, nome).Some?
    ensures ValorDe(alunos + later, nome) == ValorDe(alunos, nome)
    decreases |alunos|
  {
    assert (alunos + later)[0] == alunos[0];
    if alunos[0].nome != nome {
      assert (alunos + later)[1..] == alunos[1..] + later;
      ValorDeIgnoresLater(alunos[1..], later, nome);
    }
  }

  /** `total_valor`: the number of selected sessions times the price of the
      first student named `nome`; None where the source raises. */
  function TotalValor(alunos: seq<Aluno>, aulas: seq<Aula>, nome: string, mes: string): (r: Option<nat>)
    ensures r.None? <==> forall i :: 0 <= i < |alunos| ==> alunos[i].nome != nome
    ensures forall i :: PrimeiroAluno(alunos, nome, i) ==>
              r == Some(|AlunoAulas(aulas, nome, mes)| * alunos[i].valor)
  {
    match ValorDe(alunos, nome)
    case None => None
    case Some(v) =>
      assert forall i :: PrimeiroAluno(alunos, nome, i) ==> alunos[i].valor == v by {
        forall i | PrimeiroAluno(alunos, nome, i) ensures alunos[i].valor == v {
          var k :| PrimeiroAluno(alunos, nome, k) && v == alunos[k].valor;
          assert !(i < k) && !(k < i);
        }
      }
      Some(|AlunoAulas(aulas, nome, mes)| * v)
  }

  /** A schedule none of whose sessions match selects nothing. */
  lemma {:induction false} AlunoAulasNoneMatch(aulas: seq<Aula>, nome: string, mes: string)
    requires forall a :: a in aulas ==> !Matches(a, nome, mes)
    ensures AlunoAulas(aulas, nome, mes) == []
    decreases |aulas|
  {
    if aulas != [] {
      assert aulas[0] in aulas;
      assert forall a :: a in aulas[1..] ==> a in aulas;
      AlunoAulasNoneMatch(aulas[1..], nome, mes);
    }
  }

  /** A registered student with no session in the month owes 0. */
  lemma TotalValorNoSessions(alunos: seq<Aluno>, aulas: seq<Aula>, nome: string, mes: string)
    requires exists i :: 0 <= i < |alunos| && alunos[i].nome == nome
    requires forall a :: a in aulas ==> !Matches(a, nome, mes)
    ensures TotalValor(alunos, aulas, nome, mes) == Some(0)
  {
    AlunoAulasNoneMatch(aulas, nome, mes);
  }

  /** Billing is per session: one more matching booking adds the first
      registered price once, any other booking adds nothing. */
  lemma TotalValorAgendar(alunos: seq<Aluno>, aulas: seq<Aula>, a: Aula, nome: string, mes: string, i: int)
    requires PrimeiroAluno(alunos, nome, i)
    ensures TotalValor(alunos, aulas + [a], nome, mes)
         == Some(|AlunoAulas(aulas, nome, mes)| * alunos[i].valor
                 + (if Matches(a, nome, mes) then alunos[i].valor else 0))
  {
    var n := |AlunoAulas(aulas, nome, mes)|;
    var v := alunos[i].valor;
    var m := |AlunoAulas(aulas + [a], nome, mes)|;
    assert m == n + (if Matches(a, nome, mes) then 1 else 0) by {
      AlunoAulasSnoc(aulas, a, nome, mes);
    }
    assert TotalValor(alunos, aulas + [a], nome, mes) == Some(m * v);
    assert m * v == n * v + (if Matches(a, nome, mes) then v else 0);
  }

  /** The per-session total differs from a flat package price: a student
      registered at 100.00 with five sessions in the month is billed 500.00. */
  lemma TotalValorFiveSessions()
    ensures var ana := Aula("Ana", "2024-01-05", "10:00:00");
            TotalValor([Aluno("Ana", 1, 10000)], [ana, ana, ana, ana, ana], "Ana", "2024-01")
              == Some(50000)
  {
    var ana := Aula("Ana", "2024-01-05", "10:00:00");
    assert PrimeiroAluno([Aluno("Ana", 1, 10000)], "Ana", 0);
    AlunoAulasAllMatch([ana, ana, ana, ana, ana], "Ana", "2024-01");
  }

  // ---------------------------------------------------------------------
  // The report's lines
  // ---------------------------------------------------------------------

  function Titulo(nome: string): string
  {
    "Relatório de Aulas - " + nome
  }

  function AulaLinha(a: Aula): string
  {
    "Data: " + a.data + ", Hora: " + a.hora
  }

  function TotalLinha(total: nat): string
  {
    "Valor Total Mensal: R$" + Decimal.NatToString(total)
  }

  /** One itemised line per session, in order. */
  function AulaLinhas(sel: seq<Aula>): seq<string>
  {
    if sel == [] then [] else AulaLinhas(sel[..|sel| - 1]) + [AulaLinha(sel[|sel| - 1])]
  }

  lemma {:induction false} AulaLinhasAt(sel: seq<Aula>)
    ensures |AulaLinhas(sel)| == |sel|
    ensures forall k :: 0 <= k < |sel| ==> AulaLinhas(sel)[k] == AulaLinha(sel[k])
    decreases |sel|
  {
    if sel != [] {
      var init := sel[..|sel| - 1];
      AulaLinhasAt(init);
      assert forall k :: 0 <= k < |init| ==> init[k] == sel[k];
    }
  }

  /** The lines of the document: title, one line per session, total. */
  function ReportLines(nome: string, sel: seq<Aula>, total: nat): seq<string>
  {
    [Titulo(nome)] + AulaLinhas(sel) + [TotalLinha(total)]
  }

  /** What `gerar_relatorio` produces: the report's lines, or the error raised
      when nobody is registered under `nome`. */
  function Relatorio(alunos: seq<Aluno>, aulas: seq<Aula>, nome: string, mes: string): (r: Result<seq<string>>)
    ensures r.Err? <==> forall i :: 0 <= i < |alunos| ==> alunos[i].nome != nome
  {
    match TotalValor(alunos, aulas, nome, mes)
    case None => Err(IndexError)
    case Some(total) => Ok(ReportLines(nome, AlunoAulas(aulas, nome, mes), total))
  }

  /** The layout of a produced report: exactly 2 + n lines for n selected
      sessions — the title, each session's date and time in booking order, and
      the total, written in decimal, of n times the first registered price. */
  lemma RelatorioLayout(alunos: seq<Aluno>, aulas: seq<Aula>, nome: string, mes: string, i: int)
    requires PrimeiroAluno(alunos, nome, i)
    ensures var sel := AlunoAulas(aulas, nome, mes);
            var r := Relatorio(alunos, aulas, nome, mes);
            && r.Ok?
            && |r.value| == 2 + |sel|
            && r.value[0] == "Relatório de Aulas - " + nome
            && (forall k :: 0 <= k < |sel| ==> r.value[k + 1] == "Data: " + sel[k].data + ", Hora: " + sel[k].hora)
            && r.value[|sel| + 1] == "Valor Total Mensal: R$" + Decimal.NatToString(|sel| * alunos[i].valor)
  {
    AulaLinhasAt(AlunoAulas(aulas, nome, mes));
  }

  /** The total line can be read back: the digits after "R$" denote the
      number of selected sessions times the first registered price. */
  lemma RelatorioTotalReadBack(alunos: seq<Aluno>, aulas: seq<Aula>, nome: string, mes: string, i: int)
    requires PrimeiroAluno(alunos, nome, i)
    ensures var sel := AlunoAulas(aulas, nome, mes);
            var lines := Relatorio(alunos, aulas, nome, mes).value;
            var prefix := "Valor Total Mensal: R$";
            && |lines| == 2 + |sel|
            && prefix <= lines[|lines| - 1]
            && Decimal.IsDigits(lines[|lines| - 1][|prefix|..])
            && Decimal.Value(lines[|lines| - 1][|prefix|..]) == |sel| * alunos[i].valor
  {
    RelatorioLayout(alunos, aulas, nome, mes, i);
    var sel := AlunoAulas(aulas, nome, mes);
    var prefix := "Valor Total Mensal: R$";
    var digits := Decimal.NatToString(|sel| * alunos[i].valor);
    assert (prefix + digits)[|prefix|..] == digits;
    Decimal.ValueOfNatToString(|sel| * alunos[i].valor);
  }

  /** A session booked for another student leaves the report for `nome`
      unchanged, whether or not `nome` is registered. */
  lemma RelatorioOtherBooking(alunos: seq<Aluno>, aulas: seq<Aula>, a: Aula, nome: string, mes: string)
    requires a.nome != nome
    ensures Relatorio(alunos, aulas + [a], nome, mes) == Relatorio(alunos, aulas, nome, mes)
  {
    AlunoAulasSnoc(aulas, a, nome, mes);
  }

  /** Once `nome` is registered, registering anyone else later, under this
      name or another, leaves its report unchanged. */
  lemma RelatorioLaterRegistration(alunos: seq<Aluno>, aulas: seq<Aula>, s: Aluno, nome: string, mes: string)
    requires ValorDe(alunos, nome).Some?
    ensures Relatorio(alunos + [s], aulas, nome, mes) == Relatorio(alunos, aulas, nome, mes)
  {
    ValorDeIgnoresLater(alunos, [s], nome);
  }

  // ---------------------------------------------------------------------
  // The module-level registry
  // ---------------------------------------------------------------------

  /** The two module-level lists during one execution of the script: they
      start empty there and each append function only grows them. */
  class Registry {
    var alunos: seq<Aluno>
    var aulas: seq<Aula>

    constructor ()
      ensures alunos == [] && aulas == []
    {
      alunos := [];
      aulas := [];
    }

    /** `cadastrar_aluno`: append the student record, unchecked. */
    method CadastrarAluno(nome: string, pacote: int, valor: nat)
      modifies this
      ensures alunos == old(alunos) + [Aluno(nome, pacote, valor)]
      ensures aulas == old(aulas)
    {
      alunos := alunos + [Aluno(nome, pacote, valor)];
    }

    /** `agendar_aula`: append the session record; the name need not belong
        to a registered student. */
    method AgendarAula(nome: string, data: string, hora: string)
      modifies this
      ensures aulas == old(aulas) + [Aula(nome, data, hora)]
      ensures alunos == old(alunos)
    {
      aulas := aulas + [Aula(nome, data, hora)];
    }

    /** `gerar_relatorio`: select the sessions, price them, then lay out the
        document's lines one cell at a time. */
    method GerarRelatorio(nome: string, mes: string) returns (r: Result<seq<string>>)
      ensures r == Relatorio(alunos, aulas, nome, mes)
    {
      var alunoAulas := AlunoAulas(aulas, nome, mes);
      var valor := ValorDe(alunos, nome);
      if valor.None? {
        return Err(IndexError);
      }
      var total := |alunoAulas| * valor.value;
      assert TotalValor(alunos, aulas, nome, mes) == Some(total);
      var pdf := [Titulo(nome)];
      for k := 0 to |alunoAulas|
        invariant pdf == [Titulo(nome)] + AulaLinhas(alunoAulas[..k])
      {
        assert alunoAulas[..k + 1][..k] == alunoAulas[..k];
        pdf := pdf + [AulaLinha(alunoAulas[k])];
      }
      assert alunoAulas[..|alunoAulas|] == alunoAulas;
      pdf := pdf + [TotalLinha(total)];
      assert pdf == ReportLines(nome, alunoAulas, total);
      r := Ok(pdf);
    }
  }
}
