/** The data shaping behind `GET /api/status-operadores` of the status
    backend: roster rows become extensions (`ramais`), each extension's
    upstream reply becomes an operator record (`processRamal`), the records
    are tallied (`logados`, per contract type) and the roster is counted
    (`meta_*`). The roster query, the upstream HTTP call and the clock are
    parameters: the roster arrives as a `Result`, the upstream as a function
    from extension to reply, the time as `now`. */
module OperatorStatus {
  import opened Wrappers
  import opened Text
  import Batch

  // ---------------------------------------------------------------------
  // Roster
  // ---------------------------------------------------------------------

  /** One row of the roster query. An SQL NULL is `None`. The query only
      returns rows whose `id_argus` is neither NULL nor empty. */
  datatype RosterRow = RosterRow(
    idArgus: string,
    nome: Option<string>,
    tipoContratacao: Option<string>,
    nomeFront: Option<string>,
    equipe: Option<string>)

  /** JavaScript truthiness of an optional string: absent and "" are falsy. */
  predicate Truthy(a: Option<string>)
  {
    a.Some? && a.value != ""
  }

  /** `a || b` on optional strings. */
  function OrElse(a: Option<string>, b: Option<string>): Option<string>
  {
    if Truthy(a) then a else b
  }

  /** `a || d` with a string default. */
  function OrDefault(a: Option<string>, d: string): string
  {
    if Truthy(a) then a.value else d
  }

  /** An extension to look up, as built from a roster row. */
  datatype Ramal = Ramal(
    ramal: string,
    nome: Option<string>,
    tipo: string,
    nomeFront: Option<string>,
    equipe: Option<string>)

  predicate IsClt(tipo: string)
  {
    Upper(tipo) == "CLT"
  }

  predicate IsEstagio(tipo: string)
  {
    Upper(tipo) == "EST\U{00C1}GIO" || Upper(tipo) == "ESTAGIO"
  }

  /** The row-to-extension mapping: the row's own fields are carried over,
      and a missing or empty contract type becomes "CLT", so every
      extension has a non-empty type and a row without one counts as CLT. */
  function ToRamal(row: RosterRow): (r: Ramal)
    ensures r.ramal == row.idArgus && r.nome == row.nome
    ensures r.nomeFront == row.nomeFront && r.equipe == row.equipe
    ensures r.tipo != ""
    ensures Truthy(row.tipoContratacao) ==> r.tipo == row.tipoContratacao.value
    ensures !Truthy(row.tipoContratacao) ==> IsClt(r.tipo)
  {
    Ramal(row.idArgus, row.nome, OrDefault(row.tipoContratacao, "CLT"), row.nomeFront, row.equipe)
  }

  function ToRamais(rows: seq<RosterRow>): (rs: seq<Ramal>)
    ensures |rs| == |rows|
    ensures forall i :: 0 <= i < |rows| ==> rs[i] == ToRamal(rows[i])
  {
    seq(|rows|, i requires 0 <= i < |rows| => ToRamal(rows[i]))
  }

  // ---------------------------------------------------------------------
  // Upstream reply and the per-extension record (`processRamal`)
  // ---------------------------------------------------------------------

  /** The `statusOperador` payload; `tempoStatus` is in milliseconds. */
  datatype StatusOperador = StatusOperador(
    ramal: Option<string>,
    descricaoStatus: Option<string>,
    tempoStatus: nat,
    grupo: Option<string>)

  /** What the upstream call yields: a transport error or timeout (the
      request rejects), or a JSON body with a status code and, perhaps, a
      payload. */
  datatype ArgusReply =
    | TransportError
    | Reply(codStatus: int, descStatus: Option<string>, statusOperador: Option<StatusOperador>)

  /** An operator's status record. */
  datatype Operador = Operador(
    nome: Option<string>,
    ramal: string,
    descricaoStatus: string,
    tempoStatus: nat,
    equipe: string,
    nomeFront: Option<string>,
    equipeFront: string,
    grupo: string,
    tipo: string)

  const StatusDesconhecido: string := "Status desconhecido"
  const NaoInformado: string := "N\U{00E3}o informado"

  /** `processRamal`: no record unless the reply arrived with status code 1
      and a payload (a missing payload makes the source throw, which it
      catches); otherwise the duration in whole seconds, rounded down, the
      display name from `nomeFront` falling back to `nome`, the type copied
      from the extension, and defaults for every missing text field. */
  function ProcessRamal(item: Ramal, reply: ArgusReply): (r: Option<Operador>)
    ensures r.Some? <==> reply.Reply? && reply.codStatus == 1 && reply.statusOperador.Some?
    ensures r.Some? ==>
      var op: Operador, st: StatusOperador := r.value, reply.statusOperador.value;
      && op.tempoStatus * 1000 <= st.tempoStatus < op.tempoStatus * 1000 + 1000
      && op.tipo == item.tipo
      && op.nome == op.nomeFront
      && (Truthy(item.nomeFront) ==> op.nome == item.nomeFront)
      && (!Truthy(item.nomeFront) ==> op.nome == item.nome)
      && op.descricaoStatus == OrDefault(st.descricaoStatus, StatusDesconhecido)
      && op.equipe == op.equipeFront == OrDefault(item.equipe, NaoInformado)
      && op.grupo == OrDefault(st.grupo, NaoInformado)
      && op.ramal == OrDefault(st.ramal, item.ramal)
  {
    match reply
    case TransportError => None
    case Reply(cod, _, payload) =>
      if cod != 1 then None
      else match payload
        case None => None
        case Some(st) =>
          var nome := OrElse(item.nomeFront, item.nome);
          var equipe := OrDefault(item.equipe, NaoInformado);
          Some(Operador(
            nome,
            OrDefault(st.ramal, item.ramal),
            OrDefault(st.descricaoStatus, StatusDesconhecido),
            st.tempoStatus / 1000,
            equipe,
            nome,
            equipe,
            OrDefault(st.grupo, NaoInformado),
            item.tipo))
  }

  /** The lookup that the batch runs on every extension, given the
      upstream's reply for each extension id. */
  function Lookup(upstream: string -> ArgusReply): Ramal -> Option<Operador>
  {
    (item: Ramal) => ProcessRamal(item, upstream(item.ramal))
  }

  // ---------------------------------------------------------------------
  // Roll-up counters
  // ---------------------------------------------------------------------

  /** Logged in: the lower-cased status mentions neither a pause nor a
      log-out. */
  predicate IsLogado(op: Operador)
  {
    var status := Lower(op.descricaoStatus);
    !Contains(status, "pausa") && !Contains(status, "deslogado")
  }

  datatype Tallies = Tallies(logados: nat, logadosClt: nat, logadosEstagio: nat)

  /** What one record adds to the tallies. */
  function TallyOne(op: Operador): Tallies
  {
    if !IsLogado(op) then Tallies(0, 0, 0)
    else if IsClt(op.tipo) then Tallies(1, 1, 0)
    else if IsEstagio(op.tipo) then Tallies(1, 0, 1)
    else Tallies(1, 0, 0)
  }

  function Plus(a: Tallies, b: Tallies): Tallies
  {
    Tallies(a.logados + b.logados, a.logadosClt + b.logadosClt, a.logadosEstagio + b.logadosEstagio)
  }

  /** The tallies of a list of records. */
  function Tally(ops: seq<Operador>): Tallies
    decreases |ops|
  {
    if ops == [] then Tallies(0, 0, 0) else Plus(Tally(ops[..|ops| - 1]), TallyOne(ops[|ops| - 1]))
  }

  lemma {:induction false} TallyAppend(a: seq<Operador>, b: seq<Operador>)
    ensures Tally(a + b) == Plus(Tally(a), Tally(b))
    decreases |b|
  {
    if b == [] {
      assert a + b == a;
    } else {
      assert (a + b)[..|a + b| - 1] == a + b[..|b| - 1];
      TallyAppend(a, b[..|b| - 1]);
    }
  }

  /** Per-type logged-in counts never exceed the logged-in count, which
      never exceeds the number of records. */
  lemma {:induction false} TallyBounds(ops: seq<Operador>)
    ensures Tally(ops).logadosClt + Tally(ops).logadosEstagio <= Tally(ops).logados <= |ops|
    decreases |ops|
  {
    if ops != [] {
      TallyBounds(ops[..|ops| - 1]);
      TallyOneBounds(ops[|ops| - 1]);
    }
  }

  lemma TallyOneBounds(op: Operador)
    ensures TallyOne(op).logadosClt + TallyOne(op).logadosEstagio <= TallyOne(op).logados <= 1
  {
  }

  /** The statistics loop: one pass over the records, counting the logged-in
      ones and, among them, the CLT and the intern ones. */
  method CountLogados(operadores: seq<Operador>) returns (t: Tallies)
    ensures t == Tally(operadores)
  {
    var logados, logadosClt, logadosEstagio := 0, 0, 0;
    for i := 0 to |operadores|
      invariant Tallies(logados, logadosClt, logadosEstagio) == Tally(operadores[..i])
    {
      var op := operadores[i];
      assert operadores[..i + 1][..i] == operadores[..i];
      if IsLogado(op) {
        logados := logados + 1;
        if IsClt(op.tipo) {
          logadosClt := logadosClt + 1;
        } else if IsEstagio(op.tipo) {
          logadosEstagio := logadosEstagio + 1;
        }
      }
    }
    assert operadores[..|operadores|] == operadores;
    t := Tallies(logados, logadosClt, logadosEstagio);
  }

  /** `meta_clt`: extensions whose type is CLT. */
  function MetaClt(ramais: seq<Ramal>): nat
    decreases |ramais|
  {
    if ramais == [] then 0
    else MetaClt(ramais[..|ramais| - 1]) + (if IsClt(ramais[|ramais| - 1].tipo) then 1 else 0)
  }

  /** `meta_estagio`: extensions whose type is ESTÁGIO or ESTAGIO. */
  function MetaEstagio(ramais: seq<Ramal>): nat
    decreases |ramais|
  {
    if ramais == [] then 0
    else MetaEstagio(ramais[..|ramais| - 1]) + (if IsEstagio(ramais[|ramais| - 1].tipo) then 1 else 0)
  }

  /** Types other than the two are in neither bucket, and no extension is
      in both, so the two buckets together never exceed the roster. */
  lemma {:induction false} MetaBounds(ramais: seq<Ramal>)
    ensures MetaClt(ramais) + MetaEstagio(ramais) <= |ramais|
    decreases |ramais|
  {
    if ramais != [] {
      MetaBounds(ramais[..|ramais| - 1]);
    }
  }

  lemma {:induction false} MetaAppend(a: seq<Ramal>, b: seq<Ramal>)
    ensures MetaClt(a + b) == MetaClt(a) + MetaClt(b)
    ensures MetaEstagio(a + b) == MetaEstagio(a) + MetaEstagio(b)
    decreases |b|
  {
    if b == [] {
      assert a + b == a;
    } else {
      assert (a + b)[..|a + b| - 1] == a + b[..|b| - 1];
      MetaAppend(a, b[..|b| - 1]);
    }
  }

  /** Records keep their extension's type, so among the records that came
      back, the logged-in CLT ones are at most the CLT extensions, and
      likewise for interns. */
  lemma {:induction false} LogadosWithinMeta(ramais: seq<Ramal>, upstream: string -> ArgusReply)
    ensures Tally(Batch.Survivors(ramais, Lookup(upstream))).logadosClt <= MetaClt(ramais)
    ensures Tally(Batch.Survivors(ramais, Lookup(upstream))).logadosEstagio <= MetaEstagio(ramais)
    decreases |ramais|
  {
    if ramais != [] {
      var f := Lookup(upstream);
      var first, rest := [ramais[0]], ramais[1..];
      assert ramais == first + rest;
      LogadosWithinMeta(rest, upstream);
      OneWithinMeta(ramais[0], upstream);
      Batch.SurvivorsAppend(first, rest, f);
      TallyAppend(Batch.Survivors(first, f), Batch.Survivors(rest, f));
      MetaAppend(first, rest);
    }
  }

  lemma OneWithinMeta(r: Ramal, upstream: string -> ArgusReply)
    ensures Tally(Batch.Survivors([r], Lookup(upstream))).logadosClt <= MetaClt([r])
    ensures Tally(Batch.Survivors([r], Lookup(upstream))).logadosEstagio <= MetaEstagio([r])
  {
    var f := Lookup(upstream);
    assert [r][1..] == [];
    assert [r][..0] == [];
    match f(r)
    case None =>
      assert Batch.Survivors([r], f) == [];
    case Some(op) =>
      assert Batch.Survivors([r], f) == [op];
      assert [op][..0] == [];
      assert op.tipo == r.tipo;
  }

  // ---------------------------------------------------------------------
  // The response and the pipeline
  // ---------------------------------------------------------------------

  const Filtro: string := "CLT+Est\U{00E1}gio"
  const TokenMissing: string := "Token da API Argus n\U{00E3}o configurado"

  datatype StatusSnapshot = StatusSnapshot(
    operadores: seq<Operador>,
    logados: nat,
    meta: nat,
    horarioAtual: int,
    logadosTotal: nat,
    metaTotal: nat,
    logadosClt: nat,
    metaClt: nat,
    logadosEstagio: nat,
    metaEstagio: nat,
    filtro: string)

  /** The answer for an empty roster. */
  function EmptySnapshot(now: int): StatusSnapshot
  {
    StatusSnapshot([], 0, 0, now, 0, 0, 0, 0, 0, 0, Filtro)
  }

  /** The answer for a non-empty roster: the records that came back, their
      tallies, and the roster's own counts. */
  function Aggregate(ramais: seq<Ramal>, upstream: string -> ArgusReply, now: int): StatusSnapshot
  {
    var operadores := Batch.Survivors(ramais, Lookup(upstream));
    var t := Tally(operadores);
    StatusSnapshot(operadores, t.logados, |ramais|, now, |operadores|, |ramais|,
                   t.logadosClt, MetaClt(ramais), t.logadosEstagio, MetaEstagio(ramais), Filtro)
  }

  /** The relations every answer satisfies. */
  ghost predicate Consistent(s: StatusSnapshot)
  {
    && s.logadosClt + s.logadosEstagio <= s.logados <= s.logadosTotal
    && s.logadosTotal == |s.operadores| <= s.metaTotal
    && s.meta == s.metaTotal
    && s.logadosClt <= s.metaClt
    && s.logadosEstagio <= s.metaEstagio
    && s.metaClt + s.metaEstagio <= s.metaTotal
    && s.filtro == Filtro
    && (forall i :: 0 <= i < |s.operadores| ==> s.operadores[i].descricaoStatus != "")
  }

  /** Every answer built from a roster is consistent, and its roster totals
      depend only on the roster, not on how many lookups succeeded. */
  lemma AggregateConsistent(ramais: seq<Ramal>, upstream: string -> ArgusReply, now: int)
    ensures Consistent(Aggregate(ramais, upstream, now))
    ensures Aggregate(ramais, upstream, now).metaTotal == |ramais|
  {
    var ops := Batch.Survivors(ramais, Lookup(upstream));
    TallyBounds(ops);
    Batch.SurvivorsBounds(ramais, Lookup(upstream));
    LogadosWithinMeta(ramais, upstream);
    MetaBounds(ramais);
    RecordsHaveStatus(ramais, upstream);
  }

  /** Every record carries a non-empty status text. */
  lemma RecordsHaveStatus(ramais: seq<Ramal>, upstream: string -> ArgusReply)
    ensures var ops := Batch.Survivors(ramais, Lookup(upstream));
            forall i :: 0 <= i < |ops| ==> ops[i].descricaoStatus != ""
  {
    var f := Lookup(upstream);
    var ops := Batch.Survivors(ramais, f);
    forall i | 0 <= i < |ops| ensures ops[i].descricaoStatus != "" {
      Batch.SurvivorsComeFromItems(ramais, f, i);
      var j :| 0 <= j < |ramais| && f(ramais[j]) == Some(ops[i]);
      assert ProcessRamal(ramais[j], upstream(ramais[j].ramal)) == Some(ops[i]);
    }
  }

  lemma EmptyConsistent(now: int)
    ensures Consistent(EmptySnapshot(now))
  {
  }

  /** What one refresh attempt produces: an answer, and whether it was
      stored in the cache (an empty roster is answered but not stored), or
      the message of the error that aborted it. */
  datatype FetchOutcome = Fetched(snapshot: StatusSnapshot, stored: bool) | Failed(message: string)

  /** The refresh pipeline: the token check, the roster, the batched
      lookups, the statistics and the totals. `pauses` counts the pauses
      between chunks. */
  method FetchOperadores(
    token: Option<string>, roster: Result<seq<RosterRow>>, upstream: string -> ArgusReply,
    concurrency: nat, now: int)
    returns (outcome: FetchOutcome, pauses: nat)
    requires concurrency >= 1
    ensures !Truthy(token) ==> outcome == Failed(TokenMissing)
    ensures Truthy(token) && roster.Failure? ==> outcome == Failed(roster.error)
    ensures Truthy(token) && roster.Success? && roster.value == [] ==>
              outcome == Fetched(EmptySnapshot(now), false)
    ensures Truthy(token) && roster.Success? && roster.value != [] ==>
              outcome == Fetched(Aggregate(ToRamais(roster.value), upstream, now), true)
    ensures outcome.Fetched? ==> Consistent(outcome.snapshot)
    ensures pauses > 0 ==> roster.Success? && |roster.value| > concurrency
  {
    pauses := 0;
    if !Truthy(token) {
      return Failed(TokenMissing), 0;
    }
    if roster.Failure? {
      return Failed(roster.error), 0;
    }
    var rows := roster.value;
    if |rows| == 0 {
      return Fetched(EmptySnapshot(now), false), 0;
    }
    var ramais := ToRamais(rows);
    var operadores;
    operadores, pauses := Batch.ProcessBatch(ramais, Lookup(upstream), concurrency);
    var t := CountLogados(operadores);
    var snapshot := StatusSnapshot(operadores, t.logados, |ramais|, now, |operadores|, |ramais|,
                                   t.logadosClt, MetaClt(ramais), t.logadosEstagio, MetaEstagio(ramais), Filtro);
    AggregateConsistent(ramais, upstream, now);
    outcome := Fetched(snapshot, true);
  }

  // ---------------------------------------------------------------------
  // Worked cases
  // ---------------------------------------------------------------------

  /** A CLT operator on pause for 65 s: a record with 65 s, not logged in,
      yet counted in the CLT target. */
  lemma PausedOperatorCase()
    ensures var ramais := ToRamais([RosterRow("101", Some("Ana"), Some("CLT"), None, None)]);
            var reply := Reply(1, None, Some(StatusOperador(None, Some("Em Pausa"), 65000, None)));
            var s := Aggregate(ramais, _ => reply, 0);
            && |s.operadores| == 1 && s.operadores[0].tempoStatus == 65
            && s.logados == 0 && s.logadosClt == 0 && s.metaClt == 1 && s.meta == 1
  {
    var r := ToRamal(RosterRow("101", Some("Ana"), Some("CLT"), None, None));
    assert ToRamais([RosterRow("101", Some("Ana"), Some("CLT"), None, None)]) == [r];
    var reply := Reply(1, None, Some(StatusOperador(None, Some("Em Pausa"), 65000, None)));
    var f := Lookup(_ => reply);
    var op := ProcessRamal(r, reply).value;
    Batch.SurvivorsOne(r, f);
    assert op.descricaoStatus == "Em Pausa";
    InPauseNotLogado(op);
    SingleTally(op);
    CltCounts(r);
  }

  lemma InPauseNotLogado(op: Operador)
    requires op.descricaoStatus == "Em Pausa"
    ensures !IsLogado(op)
  {
    var status := Lower(op.descricaoStatus);
    assert status[3..8] == "pausa";
    assert OccursAt(status, "pausa", 3);
    OccursAtContains(status, "pausa", 3);
  }

  lemma SingleTally(op: Operador)
    ensures Tally([op]) == TallyOne(op)
  {
    assert [op][..0] == [];
  }

  lemma CltCounts(r: Ramal)
    requires r.tipo == "CLT"
    ensures MetaClt([r]) == 1
  {
    assert [r][..0] == [];
    assert Upper("CLT") == "CLT";
  }

  /** A timed-out lookup: no records and nobody logged in, but the roster
      still counts towards the targets. */
  lemma TimeoutCase()
    ensures var ramais := ToRamais([RosterRow("102", Some("Bia"), Some("CLT"), None, None)]);
            var s := Aggregate(ramais, _ => TransportError, 0);
            && s.operadores == [] && s.logados == 0 && s.logadosTotal == 0
            && s.meta == 1 && s.metaClt == 1
  {
    var r := ToRamal(RosterRow("102", Some("Bia"), Some("CLT"), None, None));
    assert ToRamais([RosterRow("102", Some("Bia"), Some("CLT"), None, None)]) == [r];
    var f := Lookup(_ => TransportError);
    assert f(r) == ProcessRamal(r, TransportError) == None;
    Batch.SurvivorsOne(r, f);
    assert Batch.Survivors([r], f) == [];
    CltCounts(r);
  }

  /** A status that mentions a pause anywhere is not logged in, even when it
      also says the operator is attending or free. */
  lemma PauseMentionedCase(op: Operador)
    requires op.descricaoStatus == "Em atendimento (livre para pausa)"
    ensures !IsLogado(op)
  {
    var status := Lower(op.descricaoStatus);
    assert status[27..32] == "pausa";
    assert OccursAt(status, "pausa", 27);
    OccursAtContains(status, "pausa", 27);
  }
}
