/** What the bind variables of the parameters hold, by the type code of the argument (describe.go:225-236). */
module StatementValues {
  import opened StatementParts
  import opened StatementBinds
  import opened StatementReading
  import Text

  // ---------- The text functions ----------

  /** Trimming keeps the text up to the last character that is neither CR nor LF. */
  lemma TrimmedExactly(s: string, kept: string)
    ensures kept == TrimRightCRLF(s) <==>
      && kept <= s && (kept == [] || kept[|kept| - 1] !in [CR, LF])
      && forall i | |kept| <= i < |s| :: s[i] == CR || s[i] == LF
  {
    var trimmed := TrimRightCRLF(s);
    KeptEnd(s);
    forall i | |trimmed| <= i < |s| ensures s[i] == CR || s[i] == LF {
      assert s[i] == s[|trimmed|..][i - |trimmed|];
      TrimmedTail(s, s[i]);
    }
  }

  /** Removing CRs takes out every CR and leaves the other characters in order. */
  lemma RemovedExactly(a: string, c: char, b: string)
    ensures RemoveCR([]) == [] && RemoveCR(a + [c] + b) == RemoveCR(a) + (if c == CR then [] else [c]) + RemoveCR(b)
  {
    RemoveCROfConcat(a + [c], b);
    RemoveCROfConcat(a, [c]);
    assert [c][1..] == [];
  }

  /** Case mapping changes ASCII letters by the distance of the two alphabets, and nothing else. */
  lemma {:induction false} CaseAt(s: string)
    ensures |Text.ToLower(s)| == |s| == |Text.ToUpper(s)|
    ensures forall i | 0 <= i < |s| ::
      && Text.ToLower(s)[i] as int == (if 65 <= s[i] as int <= 90 then s[i] as int + 32 else s[i] as int)
      && Text.ToUpper(s)[i] as int == (if 97 <= s[i] as int <= 122 then s[i] as int - 32 else s[i] as int)
  {
    if s != [] {
      CaseAt(s[1..]);
      assert forall i | 0 < i < |s| :: s[1..][i - 1] == s[i];
    }
  }

  // ---------- One parameter ----------

  lemma {:induction false} ElementsAt(k: Kind, values: seq<string>)
    ensures |Elements(k, values)| == |values|
    ensures forall i | 0 <= i < |values| :: Elements(k, values)[i] == Element(k, values[i])
  {
    if values != [] {
      var n := |values| - 1;
      ElementsAt(k, values[..n]);
      assert Elements(k, values) == Elements(k, values[..n]) + [Element(k, values[n])];
    }
  }

  lemma {:induction false} TrimmedAt(values: seq<string>)
    ensures |Trimmed(values)| == |values|
    ensures forall i | 0 <= i < |values| :: Trimmed(values)[i] == TrimRightCRLF(values[i])
  {
    if values != [] { TrimmedAt(values[..|values| - 1]); }
  }

  /** A number of a table: trimmed, without CRs, and with a 0 before a comma at its head. */
  predicate NumberText(t: string, v: string) {
    var w := RemoveCR(TrimRightCRLF(v));
    t == if w != [] && w[0] == ',' then ['0'] + w else w
  }

  /** `t` is how the value `v` of a table with this type code is bound. */
  predicate ElementHolds(code: int, t: string, v: string) {
    && (code == 11 ==> t == RemoveCR(v))
    && (code == 12 ==> NumberText(t, v))
    && (code in [13, 15] ==> t == RemoveCR(TrimRightCRLF(v)))
  }

  /** One element for each value, in order. */
  predicate TableOf(bound: BindValue, code: int, values: seq<string>) {
    && bound.Table? && |bound.texts| == |values|
    && forall i | 0 <= i < |values| :: ElementHolds(code, bound.texts[i], values[i])
  }

  predicate TimesOf(bound: BindValue, values: seq<string>) {
    && bound.Times? && |bound.texts| == |values|
    && forall i | 0 <= i < |values| :: bound.texts[i] == TrimRightCRLF(values[i])
  }

  lemma ElementByCode(code: int, v: string)
    requires code in [11, 12, 13, 15]
    ensures ElementHolds(code, Element(KindOf(code), v), v)
  {
  }

  lemma ElementsHold(code: int, values: seq<string>)
    requires code in [11, 12, 13, 15]
    ensures TableOf(Table(Elements(KindOf(code), values)), code, values)
  {
    ElementsAt(KindOf(code), values);
    forall i | 0 <= i < |values| ensures ElementHolds(code, Elements(KindOf(code), values)[i], values[i]) {
      ElementByCode(code, values[i]);
    }
  }

  /** A table holds the values of the request in their order, cleaned as its type asks; an argument of dates holds
      the times that the trimmed values stand for. */
  lemma TableHolds(p: Request)
    requires p.code in [11, 12, 13, 15]
    ensures TableOf(StoredValue(p), p.code, p.values)
    ensures if p.code == 13 then TimesOf(ArgumentValue(p), p.values) else TableOf(ArgumentValue(p), p.code, p.values)
  {
    ElementsHold(p.code, p.values);
    TrimmedAt(p.values);
    TableCodes(p.code);
    TableValues(p, p.Kind());
  }

  lemma TableCodes(code: int)
    requires code in [11, 12, 13, 15]
    ensures IsTable(KindOf(code)) && (KindOf(code).DateTab? <==> code == 13)
  {
  }

  lemma TableValues(p: Request, k: Kind)
    requires p.Kind() == k && IsTable(k)
    ensures StoredValue(p) == Table(Elements(k, p.values))
    ensures ArgumentValue(p) == if k.DateTab? then Times(Trimmed(p.values)) else Table(Elements(k, p.values))
  {
  }

  /** A string is bound without its CRs, a boolean trimmed and in lower case, anything else trimmed; an empty
      number is null. What is saved is the same text, also for a parameter that the procedure does not have. */
  lemma ScalarHolds(p: Request)
    requires p.code !in [11, 12, 13, 14, 15] && p.values != []
    ensures var v := p.values[0];
      && (p.code == 1 ==> ArgumentValue(p) == Text(RemoveCR(v)))
      && (p.code == 2 ==> ArgumentValue(p) == if TrimRightCRLF(v) == "" then Null else Text(TrimRightCRLF(v)))
      && (p.code in [3, 5] ==> ArgumentValue(p) == Text(TrimRightCRLF(v)))
      && (p.code == 4 ==> ArgumentValue(p) == Text(Text.ToLower(TrimRightCRLF(v))))
      && (p.code != 4 ==> StoredValue(p) == Text(if p.code == 1 then RemoveCR(v) else TrimRightCRLF(v)))
  {
  }

  /** An argument is bound exactly if the procedure has the parameter, under its name; a copy is saved, under the name
      with `#` behind it, exactly if there is a saving procedure and the parameter is no boolean. */
  lemma BindsExactly(p: Request, proc: string, key: string)
    ensures Binding(p, proc, key) <==>
      || (p.code in [1, 2, 3, 4, 5, 11, 12, 13, 14, 15] && key == p.name)
      || (proc != "" && p.code != 4 && key == p.name + ['#'])
    ensures Binding(p, proc, key) ==>
      BoundTo(p, proc, key) == if key == p.name then ArgumentValue(p) else StoredValue(p)
  {
  }

  // ---------- The whole map ----------

  lemma {:induction false} FirstsAt(ps: seq<Request>)
    ensures |Names(ps)| == |Firsts(ps)| == |ps|
    ensures forall i | 0 <= i < |ps| ::
      Names(ps)[i] == ps[i].name && Firsts(ps)[i] == if ps[i].values == [] then "" else ps[i].values[0]
  {
    if ps != [] { FirstsAt(ps[..|ps| - 1]); }
  }

  lemma OwnHolds(env: seq<Variable>, key: string)
    requires key in INPUTS
    ensures key in OwnBinds(env)
    ensures var bound := OwnBinds(env)[key];
      && (key == "num_params" ==> bound == Count(|env|))
      && (key == "param_name" ==>
            bound.Table? && |bound.texts| == |env| && forall i | 0 <= i < |env| :: bound.texts[i] == env[i].name)
      && (key == "param_val" ==>
            bound.Table? && |bound.texts| == |env| && forall i | 0 <= i < |env| :: bound.texts[i] == env[i].value)
  {
    InputIsNoOutput(key);
  }

  /** The ten variables that the statement writes. */
  lemma OutputHolds(env: seq<Variable>, key: string)
    requires key in ["ContentType", "ContentLength", "CustomHeaders", "rc__", "content__", "lob__", "bNextChunkExists",
                     "sqlerrcode", "sqlerrm", "sqlerrtrace"]
    ensures key in OwnBinds(env) && OwnBinds(env)[key] == Output(key)
  {
  }

  lemma InputIsNoOutput(key: string)
    requires key in INPUTS
    ensures key !in OUTPUTS
  {
  }

  lemma FourOf(a: string, b: string, c: string, d: string, v: BindValue, w: BindValue, x: BindValue, y: BindValue)
    requires a != b && a != c && a != d && b != c && b != d && c != d
    ensures var m := map[a := v, b := w, c := x, d := y]; m[a] == v && m[b] == w && m[c] == x && m[d] == y
  {
  }

  lemma LateNamesDiffer()
    ensures "package_name" != "ext_param_name" && "package_name" != "ext_param_val"
    ensures "package_name" != "num_ext_params"
    ensures "ext_param_name" != "ext_param_val" && "ext_param_name" != "num_ext_params"
    ensures "ext_param_val" != "num_ext_params"
  {
    assert |"package_name"| == 12 && |"ext_param_name"| == 14 && |"ext_param_val"| == 13 && |"num_ext_params"| == 14;
    assert "ext_param_name"[0] == 'e' && "num_ext_params"[0] == 'n';
  }

  lemma LateHolds(ps: seq<Request>, package: string)
    ensures var late := LateBinds(ps, package);
      && late["package_name"] == Text(package) && late["num_ext_params"] == Count(|ps|)
      && late["ext_param_name"] == Table(Names(ps)) && late["ext_param_val"] == Table(Firsts(ps))
  {
    LateNamesDiffer();
    FourOf("package_name", "ext_param_name", "ext_param_val", "num_ext_params",
           Text(package), Table(Names(ps)), Table(Firsts(ps)), Count(|ps|));
  }

  /** What the parameters leave in the map that is executed, as long as run does not write behind them: what was said
      above for the last parameter that binds the key. */
  lemma ExecutedValue(env: seq<Variable>, ps: seq<Request>, proc: string, package: string, i: nat, key: string)
    requires i < |ps| && LastBinder(ps, proc, i, key) && key !in LATE
    ensures var binds := AllBinds(OwnBinds(env), ps, proc, LateBinds(ps, package));
      && key in binds && binds[key] == (if key == ps[i].name then ArgumentValue(ps[i]) else StoredValue(ps[i]))
      && (ps[i].code in [11, 12, 15] ==> TableOf(binds[key], ps[i].code, ps[i].values))
      && (ps[i].code == 13 && key == ps[i].name ==> TimesOf(binds[key], ps[i].values))
      && (ps[i].code == 13 && key != ps[i].name ==> TableOf(binds[key], 13, ps[i].values))
  {
    LastBindingCounts(OwnBinds(env), ps, proc, LateBinds(ps, package), key);
    if ps[i].code in [11, 12, 13, 15] { TableHolds(ps[i]); }
  }
}
