/** The trigger editor of the workflow builder: the trigger type, its
    keyword list and its match mode. Each handler builds a new trigger. */
module TriggerConfig {
  import opened Common
  import opened Text
  import opened Domain
  import Engine

  /** `handleTypeChange`: a keyword trigger starts with no keywords and
      `any`; every other type with an empty config. */
  function ForType(kind: TriggerType): Trigger {
    if kind == KeywordMatch then Trigger(kind, Some([]), Some(Any)) else Trigger(kind, None, None)
  }

  /** A keyword trigger fresh from a type change does not fire until a
      keyword is added; the other types fire as their type says. */
  lemma ForTypeFires(kind: TriggerType, body: string, isFirst: bool)
    ensures kind == KeywordMatch ==> !Engine.EvaluateTrigger(ForType(kind), body, isFirst)
    ensures kind == NewMessage ==> Engine.EvaluateTrigger(ForType(kind), body, isFirst)
    ensures kind == NewConversation ==> (Engine.EvaluateTrigger(ForType(kind), body, isFirst) <==> isFirst)
  {
    if kind == KeywordMatch {
      Engine.NoKeywords(ForType(kind), body, isFirst);
    }
  }

  function KeywordsOf(t: Trigger): seq<string> {
    t.keywords.GetOr([])
  }

  /** `addKeyword`: blank input is ignored; otherwise the trimmed keyword
      goes last. */
  function AddKeyword(t: Trigger, keyword: string): Trigger {
    if Trim(keyword) == "" then t else t.(keywords := Some(KeywordsOf(t) + [Trim(keyword)]))
  }

  /** Input that is only whitespace changes nothing; other input appends its
      trimmed form, which is never blank, and keeps the type and the match
      mode. Removing the new last keyword gives back the list. */
  lemma AddKeywordExact(t: Trigger, keyword: string)
    ensures (forall i :: 0 <= i < |keyword| ==> IsSpace(keyword[i])) ==> AddKeyword(t, keyword) == t
    ensures (exists i :: 0 <= i < |keyword| && !IsSpace(keyword[i])) ==>
      var r := AddKeyword(t, keyword);
      && r.kind == t.kind && r.matchMode == t.matchMode
      && KeywordsOf(r) == KeywordsOf(t) + [Trim(keyword)]
      && Trim(keyword) != "" && !IsSpace(Trim(keyword)[0]) && !IsSpace(Trim(keyword)[|Trim(keyword)| - 1])
      && WithoutIndex(KeywordsOf(r), |KeywordsOf(t)|) == KeywordsOf(t)
  {
    if exists i :: 0 <= i < |keyword| && !IsSpace(keyword[i]) {
      WithoutLastAppended(KeywordsOf(t), Trim(keyword));
    }
  }

  /** Once a keyword is added, a keyword trigger in `any` mode fires on every
      message containing it, whatever the case. */
  lemma AddedKeywordFires(t: Trigger, keyword: string, body: string, isFirst: bool)
    requires t.kind == KeywordMatch && t.matchMode != Some(All) && Trim(keyword) != ""
    requires Contains(Lower(body), Lower(Trim(keyword)))
    ensures Engine.EvaluateTrigger(AddKeyword(t, keyword), body, isFirst)
  {
    var ks := KeywordsOf(AddKeyword(t, keyword));
    assert ks[|ks| - 1] == Trim(keyword);
  }

  /** `removeKeyword`. */
  function RemoveKeyword(t: Trigger, index: int): Trigger {
    t.(keywords := Some(WithoutIndex(KeywordsOf(t), index)))
  }

  /** Removing drops exactly the keyword at that index and keeps the others
      in order, with the type and match mode. */
  lemma RemoveKeywordExact(t: Trigger, index: int)
    ensures var r := RemoveKeyword(t, index);
      && r.kind == t.kind && r.matchMode == t.matchMode
      && (0 <= index < |KeywordsOf(t)| ==>
            && |KeywordsOf(r)| == |KeywordsOf(t)| - 1
            && (forall j :: 0 <= j < index ==> KeywordsOf(r)[j] == KeywordsOf(t)[j])
            && (forall j :: index <= j < |KeywordsOf(r)| ==> KeywordsOf(r)[j] == KeywordsOf(t)[j + 1]))
      && (index < 0 || index >= |KeywordsOf(t)| ==> KeywordsOf(r) == KeywordsOf(t))
  {
    WithoutIndexExact(KeywordsOf(t), index);
  }

  /** The match-mode selector. */
  function SetMatchMode(t: Trigger, mode: MatchMode): Trigger {
    t.(matchMode := Some(mode))
  }

  /** Changing the mode keeps the type and the keywords, and under `all` a
      message fires exactly when it contains every keyword. */
  lemma SetMatchModeExact(t: Trigger, mode: MatchMode, body: string, isFirst: bool)
    ensures var r := SetMatchMode(t, mode);
      && r.kind == t.kind && r.keywords == t.keywords && r.matchMode == Some(mode)
      && (t.kind == KeywordMatch && mode == All ==>
            (Engine.EvaluateTrigger(r, body, isFirst) <==>
               forall i :: 0 <= i < |KeywordsOf(t)| ==> Contains(Lower(body), Lower(KeywordsOf(t)[i]))))
  {
    var r := SetMatchMode(t, mode);
    assert KeywordsOf(t) == (if r.keywords.Some? then r.keywords.value else []);
  }
}
