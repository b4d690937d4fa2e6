/** The SymbolTransform text: the captured symbol transform printed as its
    three basis vectors and its quantised origin, separated by single
    spaces. The getter as written prints BasisX in the third slot where
    BasisZ belongs; both versions are defined here, and the corrected one is
    the model's SymbolTransformText. */
module TransformText {
  import opened Results
  import opened Geometry
  import opened IndexRecords
  import opened Collector

  /** The four printed fields of transform `t`, in the intended order. */
  function Fields(k: Kernel, t: Transform): seq<string> {
    [k.vectorText(k.basisX(t)), k.vectorText(k.basisY(t)), k.vectorText(k.basisZ(t)),
     k.keyText(k.quantize(k.origin(t)))]
  }

  /** The four printed fields as the getter writes them: BasisX twice. */
  function FieldsAsWritten(k: Kernel, t: Transform): seq<string> {
    [k.vectorText(k.basisX(t)), k.vectorText(k.basisY(t)), k.vectorText(k.basisX(t)),
     k.keyText(k.quantize(k.origin(t)))]
  }

  /** The host's formatters print every field of `t` without spaces. */
  predicate SpaceFree(k: Kernel, t: Transform) {
    && NoSpace(k.vectorText(k.basisX(t))) && NoSpace(k.vectorText(k.basisY(t)))
    && NoSpace(k.vectorText(k.basisZ(t))) && NoSpace(k.keyText(k.quantize(k.origin(t))))
  }

  /** SymbolTransform as written. With nothing captured the getter
      dereferences a null transform; that case is None. */
  function SymbolTransformAsWritten(k: Kernel, st: State): (r: Option<string>)
    ensures r.Some? <==> st.symbolTransform.Some?
  {
    match st.symbolTransform
    case None => None
    case Some(t) => Some(JoinSpaced(FieldsAsWritten(k, t)))
  }

  /** SymbolTransform with BasisZ in the third slot. */
  function SymbolTransformText(k: Kernel, st: State): (r: Option<string>)
    ensures r.Some? <==> st.symbolTransform.Some?
  {
    match st.symbolTransform
    case None => None
    case Some(t) => Some(JoinSpaced(Fields(k, t)))
  }

  /** Splitting the corrected text at its spaces gives BasisX, BasisY,
      BasisZ and the origin, in that order. */
  lemma SymbolTransformTextFields(k: Kernel, st: State)
    requires st.symbolTransform.Some? && SpaceFree(k, st.symbolTransform.value)
    ensures SplitSpaces(SymbolTransformText(k, st).value) == Fields(k, st.symbolTransform.value)
  {
    SplitJoin(Fields(k, st.symbolTransform.value));
  }

  /** Splitting the text as written gives BasisX in the first and in the
      third field. */
  lemma AsWrittenRepeatsBasisX(k: Kernel, st: State)
    requires st.symbolTransform.Some? && SpaceFree(k, st.symbolTransform.value)
    ensures var parts := SplitSpaces(SymbolTransformAsWritten(k, st).value);
            |parts| == 4 && parts[2] == parts[0] == k.vectorText(k.basisX(st.symbolTransform.value))
  {
    SplitJoin(FieldsAsWritten(k, st.symbolTransform.value));
  }

  /** The discrepancy: two captured transforms that agree on BasisX, BasisY
      and the origin but not on BasisZ print the same text as written. */
  lemma AsWrittenLosesBasisZ(k: Kernel, st: State, st': State)
    requires st.symbolTransform.Some? && st'.symbolTransform.Some?
    requires var a, b := st.symbolTransform.value, st'.symbolTransform.value;
             && k.basisX(a) == k.basisX(b) && k.basisY(a) == k.basisY(b)
             && k.origin(a) == k.origin(b) && k.basisZ(a) != k.basisZ(b)
    ensures SymbolTransformAsWritten(k, st) == SymbolTransformAsWritten(k, st')
  {
  }

  /** The corrected text tells such transforms apart whenever their BasisZ
      vectors print differently. */
  lemma TextKeepsBasisZ(k: Kernel, st: State, st': State)
    requires st.symbolTransform.Some? && st'.symbolTransform.Some?
    requires SpaceFree(k, st.symbolTransform.value) && SpaceFree(k, st'.symbolTransform.value)
    requires k.vectorText(k.basisZ(st.symbolTransform.value)) != k.vectorText(k.basisZ(st'.symbolTransform.value))
    ensures SymbolTransformText(k, st) != SymbolTransformText(k, st')
  {
    SymbolTransformTextFields(k, st);
    SymbolTransformTextFields(k, st');
    assert Fields(k, st.symbolTransform.value)[2] != Fields(k, st'.symbolTransform.value)[2];
  }
}
