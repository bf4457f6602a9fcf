/**
 * The customer page (app/clientes/page.tsx): the CPF is reduced to its
 * digits before a customer is saved, and empty coordinates of a new
 * address are sent as null.
 */
module Clientes {
  import opened Options
  import opened JsValues
  import opened Text
  import opened Seqs

  /** `cpf.replace(/\D/g, '')`: delete every character that is not a decimal digit. */
  function StripNonDigits(s: string): (r: string)
    ensures forall i :: 0 <= i < |r| ==> IsDigit(r[i])
    ensures IsSubseq(r, s)
    ensures forall c :: IsDigit(c) ==> multiset(r)[c] == multiset(s)[c]
    ensures forall c :: !IsDigit(c) ==> multiset(r)[c] == 0
  {
    FilterIsSubseq(s, IsDigit);
    assert forall c :: multiset(Filter(s, IsDigit))[c] == if IsDigit(c) then multiset(s)[c] else 0 by {
      forall c ensures multiset(Filter(s, IsDigit))[c] == if IsDigit(c) then multiset(s)[c] else 0 {
        FilterCount(s, IsDigit, c);
      }
    }
    var r := Filter(s, IsDigit);
    assert forall i :: 0 <= i < |r| ==> IsDigit(r[i]) by {
      forall i | 0 <= i < |r| ensures IsDigit(r[i]) { assert r[i] in r; }
    }
    r
  }

  /** Normalising an already normalised CPF changes nothing. */
  lemma StripNonDigitsIdempotent(s: string)
    ensures StripNonDigits(StripNonDigits(s)) == StripNonDigits(s)
  {
    FilterIdempotent(s, IsDigit);
  }

  /** A CPF typed as digits only is sent unchanged. */
  lemma AllDigitCpfUnchanged(s: string)
    requires forall i :: 0 <= i < |s| ==> IsDigit(s[i])
    ensures StripNonDigits(s) == s
  {
    FilterKeepsAll(s, IsDigit);
  }

  /**
   * `data.cpf?.replace(/\D/g, '')`: a string is normalised, an absent
   * value stays absent, and any other value has no `replace`, which throws
   * (`None`).
   */
  function NormalizeCpf(cpf: Value): (r: Option<Value>)
    ensures r.None? <==> cpf.Bool? || cpf.Num?
    ensures cpf.Str? ==> r == Some(Str(StripNonDigits(cpf.s)))
    ensures cpf.Undefined? || cpf.Null? ==> r == Some(Undefined)
  {
    match cpf
    case Str(s) => Some(Str(StripNonDigits(s)))
    case Undefined => Some(Undefined)
    case Null => Some(Undefined)
    case _ => None
  }

  /**
   * `submitData` in `handleSubmit`: `{...data, cpf: normalised}`, or `None`
   * when the normalisation throws.
   */
  function ClientSubmitData(data: Record): (r: Option<Record>)
    ensures r.None? <==> Get(data, "cpf").Bool? || Get(data, "cpf").Num?
    ensures r.Some? ==> r.value.Keys == data.Keys + {"cpf"}
    ensures r.Some? ==> forall k :: k in data && k != "cpf" ==> r.value[k] == data[k]
    ensures r.Some? ==> r.value["cpf"] == Undefined || r.value["cpf"].Str?
    ensures r.Some? && r.value["cpf"].Str? ==>
              (forall i :: 0 <= i < |r.value["cpf"].s| ==> IsDigit(r.value["cpf"].s[i]))
    ensures Get(data, "cpf").Str? ==> r == Some(data["cpf" := Str(StripNonDigits(Get(data, "cpf").s))])
    ensures Get(data, "cpf").Undefined? || Get(data, "cpf").Null? ==> r == Some(data["cpf" := Undefined])
  {
    match NormalizeCpf(Get(data, "cpf"))
    case Some(cpf) => Some(data["cpf" := cpf])
    case None => None
  }

  /** Submitting an already submitted customer record sends the same record. */
  lemma ClientSubmitIdempotent(data: Record)
    requires ClientSubmitData(data).Some?
    ensures ClientSubmitData(ClientSubmitData(data).value) == ClientSubmitData(data)
  {
    var once := ClientSubmitData(data).value;
    if Get(data, "cpf").Str? {
      StripNonDigitsIdempotent(Get(data, "cpf").s);
      assert once["cpf" := Str(StripNonDigits(once["cpf"].s))] == once;
    } else {
      assert once["cpf" := Undefined] == once;
    }
  }

  /**
   * `submitData` in `handleAddressSubmit`: `{...data, latitude, longitude}`
   * with an empty coordinate sent as null and any other one parsed.
   */
  function AddressSubmitData(data: Record, parsers: NumberParsers): (r: Record)
    ensures r.Keys == data.Keys + {"latitude", "longitude"}
    ensures forall k :: k in data && k != "latitude" && k != "longitude" ==> r[k] == data[k]
    ensures r["latitude"] == Null <==> !Truthy(Get(data, "latitude"))
    ensures r["longitude"] == Null <==> !Truthy(Get(data, "longitude"))
    ensures Truthy(Get(data, "latitude")) ==> r["latitude"] == Num(parsers.parseFloat(Get(data, "latitude")))
    ensures Truthy(Get(data, "longitude")) ==> r["longitude"] == Num(parsers.parseFloat(Get(data, "longitude")))
  {
    data["latitude" := OptionalFloat(Get(data, "latitude"), parsers)]
        ["longitude" := OptionalFloat(Get(data, "longitude"), parsers)]
  }
}
