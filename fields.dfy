/** `base/src/field.rs`: a configuration field and the builder that checks it has a value
    (or may go without one) before it becomes a field. The source's `mut self` methods that
    return `self` are methods that update the object in place. */
module Fields {
  import opened Wrappers
  import opened Errors
  import BaseErrors
  import Parser

  class Field {
    var key: string
    var value: Option<string>
    var optional: bool

    /** `#[derive(Default)]`: empty key, no value, required. */
    constructor Default()
      ensures key == "" && value == None && !optional
    {
      key, value, optional := "", None, false;
    }

    /** `Field::new`: a required field with the given key and value. */
    constructor (key: string, value: Option<string>)
      ensures this.key == key && this.value == value && !optional
    {
      this.key, this.value, optional := key, value, false;
    }

    /** `with_optional`: sets the flag and nothing else; the value is kept. */
    method WithOptional(op: bool)
      modifies this
      ensures optional == op && key == old(key) && value == old(value)
    {
      optional := op;
    }

    function IsOptional(): (r: bool)
      reads this
      ensures r <==> optional
    {
      optional
    }

    /** The field has a value or may go without one: true of every field `Build` makes. */
    predicate Settled()
      reads this
    {
      value.Some? || optional
    }

    /** `value`: an optional field without a value gives `Ok(None)`; a value is converted
        by `parse`, whose errors carry an empty key; a required field without a value fails
        with its own key. */
    function Value<T>(conv: string -> Result<T, string>): (r: Result<Option<T>, ConfigError>)
      reads this
      ensures optional && value.None? ==> r == Ok(None)
      ensures !optional && value.None? ==> r == Err(MissingKey(key))
      ensures value.Some? ==> (r.Ok? <==> conv(value.value).Ok?)
      ensures value.Some? && r.Ok? ==> r.value == Some(conv(value.value).value)
      ensures value.Some? && r.Err? ==> r.error == ParseError("", value.value, conv(value.value).error)
    {
      if IsOptional() && value.None? then Ok(None)
      else
        match value
        case Some(v) =>
          (match Parser.Parse(conv, v)
           case Ok(x) => Ok(Some(x))
           case Err(e) => Err(e))
        case None => Err(BaseErrors.MissingKeyErr(key))
    }
  }

  /** A settled field never reports a missing key: whatever `value` fails with is a
      conversion error. */
  lemma SettledNeverMissing<T>(f: Field, conv: string -> Result<T, string>)
    requires f.Settled()
    ensures f.Value(conv).Err? ==> f.Value(conv).error.ParseError? && f.Value(conv).error.key == ""
  {
  }

  class FieldBuilder {
    var key: string
    var value: Option<string>
    var optional: bool

    /** `FieldBuilder::new`: no value, required. */
    constructor (key: string)
      ensures this.key == key && value == None && !optional
    {
      this.key, value, optional := key, None, false;
    }

    /** `with_value`: replaces the value only. */
    method WithValue(v: Option<string>)
      modifies this
      ensures value == v && key == old(key) && optional == old(optional)
    {
      value := v;
    }

    /** `with_optional`: sets the flag and also clears any value set before. */
    method WithOptional(op: bool)
      modifies this
      ensures value == None && optional == op && key == old(key)
    {
      value := None;
      optional := op;
    }

    /** `build`: a new field with the same key, value and flag when there is a value or
        the field may go without one; otherwise `MissingKey` with the builder's key. */
    method Build() returns (r: Result<Field, ConfigError>)
      ensures r.Ok? <==> value.Some? || optional
      ensures r.Ok? ==> fresh(r.value) && r.value.Settled()
      ensures r.Ok? ==> r.value.key == key && r.value.value == value && r.value.optional == optional
      ensures r.Err? ==> r.error == MissingKey(key)
    {
      if value.Some? || optional {
        var f := new Field(key, value);
        f.WithOptional(optional);
        return Ok(f);
      }
      return Err(BaseErrors.MissingKeyErr(key));
    }
  }

  /** A builder set optional after its value was given has lost the value. */
  method OptionalAfterValueClears(key: string, v: string) returns (f: Result<Field, ConfigError>)
    ensures f.Ok? && f.value.value == None && f.value.optional
  {
    var b := new FieldBuilder(key);
    b.WithValue(Some(v));
    b.WithOptional(true);
    f := b.Build();
  }

  /** A builder given a value after being set optional keeps the value. */
  method ValueAfterOptionalKept(key: string, v: string) returns (f: Result<Field, ConfigError>)
    ensures f.Ok? && f.value.value == Some(v) && f.value.optional
  {
    var b := new FieldBuilder(key);
    b.WithOptional(true);
    b.WithValue(Some(v));
    f := b.Build();
  }

  /** A fresh builder, required and without a value, does not build. */
  method NewBuilderFails(key: string) returns (f: Result<Field, ConfigError>)
    ensures f == Err(MissingKey(key))
  {
    var b := new FieldBuilder(key);
    f := b.Build();
  }
}
