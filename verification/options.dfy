/** The option lists of the material and tool forms and their normalisers:
    a value is sanitised, an empty one becomes the first option, and any
    other value is kept as it is, listed or not. */
module Options {
  import opened Json
  import Text
  import Tools

  const Estados: seq<string> := ["Operativo", "En reparacion", "Danado", "Baja"]

  const Rubros: seq<string> := [
    "Albanileria", "Instalacion sanitaria", "Instalacion electrica", "Instalacion de gas",
    "Fijaciones", "Pinturas", "Herrajes", "Impermeabilizacion", "Aislaciones",
    "Placas y paneles", "Revestimientos", "Perfiles metalicos", "Consumibles", "Otros"]

  const Condiciones: seq<string> := ["Nuevo", "Usado", "Danado", "En reparacion", "Saldo"]

  /** The shared shape of the three normalisers: `sanitizeText(value)`, the
      first option when that is falsy, otherwise the sanitised value (the
      `includes` test picks the same value either way). An absent value is
      `JNull`. */
  function NormalizeWith(options: seq<string>, v: Value): Value
    requires |options| > 0
  {
    var clean := Text.SanitizeValue(v);
    if !Truthy(clean) then JStr(options[0]) else clean
  }

  /** `normalizeEstado`: never empty, "Operativo" for an empty or absent
      value. */
  function NormalizeEstado(v: Value): (r: Value)
    ensures Truthy(r)
    ensures v == JNull || v == JStr("") ==> r == JStr("Operativo")
  {
    NormalizeWithCases(Estados, v);
    NormalizeWith(Estados, v)
  }

  /** `normalizeRubro`: never empty, "Albanileria" for an empty or absent
      value. */
  function NormalizeRubro(v: Value): (r: Value)
    ensures Truthy(r)
    ensures v == JNull || v == JStr("") ==> r == JStr("Albanileria")
  {
    NormalizeWithCases(Rubros, v);
    NormalizeWith(Rubros, v)
  }

  /** `normalizeCondicion`: never empty, "Nuevo" for an empty or absent
      value. */
  function NormalizeCondicion(v: Value): (r: Value)
    ensures Truthy(r)
    ensures v == JNull || v == JStr("") ==> r == JStr("Nuevo")
  {
    NormalizeWithCases(Condiciones, v);
    NormalizeWith(Condiciones, v)
  }

  /** An empty or absent value becomes the first option; any value whose
      sanitised form is non-empty is that form, even outside the list; the
      result is never empty. */
  lemma NormalizeWithCases(options: seq<string>, v: Value)
    requires |options| > 0 && options[0] != ""
    ensures v == JNull || v == JStr("") ==> NormalizeWith(options, v) == JStr(options[0])
    ensures Truthy(Text.SanitizeValue(v)) ==> NormalizeWith(options, v) == Text.SanitizeValue(v)
    ensures Truthy(NormalizeWith(options, v))
  {
    if v == JStr("") {
      assert Text.Sanitize("") == "";
    }
  }

  /** Normalising a normalised value changes nothing. */
  lemma NormalizeWithIdempotent(options: seq<string>, v: Value)
    requires |options| > 0 && options[0] != ""
    requires Text.Bad !in options[0] && Text.BadE !in options[0]
    ensures NormalizeWith(options, NormalizeWith(options, v)) == NormalizeWith(options, v)
  {
    var r := NormalizeWith(options, v);
    if r == JStr(options[0]) {
      Text.SanitizeKeepsCleanText(options[0]);
    } else if v.JStr? {
      Text.SanitizeIdempotent(v.s);
    }
  }

  /** The three normalisers default to "Operativo", "Albanileria" and
      "Nuevo", never give an empty value, and are idempotent. */
  lemma NormalizersProperties(v: Value)
    ensures NormalizeEstado(JStr("")) == JStr("Operativo") && NormalizeEstado(JNull) == JStr("Operativo")
    ensures NormalizeRubro(JStr("")) == JStr("Albanileria") && NormalizeCondicion(JNull) == JStr("Nuevo")
    ensures Truthy(NormalizeEstado(v)) && Truthy(NormalizeRubro(v)) && Truthy(NormalizeCondicion(v))
    ensures NormalizeEstado(NormalizeEstado(v)) == NormalizeEstado(v)
    ensures NormalizeRubro(NormalizeRubro(v)) == NormalizeRubro(v)
    ensures NormalizeCondicion(NormalizeCondicion(v)) == NormalizeCondicion(v)
  {
    NormalizeWithCases(Estados, JStr(""));
    NormalizeWithCases(Estados, JNull);
    NormalizeWithCases(Rubros, JStr(""));
    NormalizeWithCases(Condiciones, JNull);
    NormalizeWithCases(Estados, v);
    NormalizeWithCases(Rubros, v);
    NormalizeWithCases(Condiciones, v);
    NormalizeWithIdempotent(Estados, v);
    NormalizeWithIdempotent(Rubros, v);
    NormalizeWithIdempotent(Condiciones, v);
  }

  /** A value outside the list is kept: the list only supplies the default. */
  lemma UnlistedRubroKept()
    ensures NormalizeRubro(JStr("Hormigon")) == JStr("Hormigon")
    ensures "Hormigon" !in Rubros
  {
    var s := "Hormigon";
    assert Text.Bad !in s && Text.BadE !in s;
    Text.SanitizeKeepsCleanText(s);
    assert Text.SanitizeValue(JStr(s)) == JStr(s);
  }

  /** The tool form offers exactly the states the server's tool schema
      accepts, in the same order. */
  lemma EstadosMatchServer()
    ensures Estados == Tools.ToolStates
  {
  }
}
