/** `TrimPipe`: on a record, every top-level string field that can be set loses its leading
    and trailing white space; every other field, and every string nested inside another
    field, is left as it was. */
module TrimPipe {
  import opened Json
  import opened Text

  /** A field's value: a string, or anything else (numbers, flags, slices, maps, times),
      whose contents the pipe never looks into. */
  datatype Value = Str(s: string) | Other(v: Json)

  /** One field of the record, in declaration order; `settable` is reflection's `CanSet`
      (false for unexported fields). */
  datatype Field = Field(name: string, settable: bool, value: Value)

  /** The fields the pipe rewrites. */
  predicate Trimmable(f: Field)
  {
    f.settable && f.value.Str?
  }

  /** One field through the pipe. */
  function TrimField(f: Field): (g: Field)
    ensures g.name == f.name && g.settable == f.settable
    ensures Trimmable(f) ==> g.value.Str? && Trimmed(g.value.s)
    ensures Trimmable(f) ==> g.value.s == TrimSpace(f.value.s)
    ensures !Trimmable(f) ==> g == f
  {
    if Trimmable(f) then Field(f.name, f.settable, Str(TrimSpace(f.value.s))) else f
  }

  /** `TrimPipe` over the record's fields: count, order, names and settability are kept;
      each settable string becomes its trimmed core, which is free of white space at both
      ends and is what is left after removing only white space from either end; all other
      fields are untouched. */
  function Pipe(fields: seq<Field>): (r: seq<Field>)
    ensures |r| == |fields|
    ensures forall i :: 0 <= i < |fields| ==> r[i].name == fields[i].name && r[i].settable == fields[i].settable
    ensures forall i :: 0 <= i < |fields| && Trimmable(fields[i]) ==>
              && r[i].value.Str? && Trimmed(r[i].value.s)
              && exists a, b :: 0 <= a <= b <= |fields[i].value.s| && r[i].value.s == fields[i].value.s[a..b]
                                && AllSpace(fields[i].value.s[..a]) && AllSpace(fields[i].value.s[b..])
    ensures forall i :: 0 <= i < |fields| && !Trimmable(fields[i]) ==> r[i] == fields[i]
  {
    seq(|fields|, i requires 0 <= i < |fields| => TrimField(fields[i]))
  }

  /** Running the pipe twice is running it once. */
  lemma PipeIdempotent(fields: seq<Field>)
    ensures Pipe(Pipe(fields)) == Pipe(fields)
  {
    var once := Pipe(fields);
    forall i | 0 <= i < |fields|
      ensures Pipe(once)[i] == once[i]
    {
      if Trimmable(fields[i]) {
        TrimSpaceOfTrimmed(once[i].value.s);
      }
    }
  }
}
