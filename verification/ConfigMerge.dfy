/**
 The settings held in memory after an update against the settings a later reader of incus.cfg sees.
 */
module ConfigMerge {
  import opened Text
  import opened Settings
  import opened ShellConfig
  import opened ShellRewrite
  import opened ShellRoundTrip

  /** A property of a parsed JSON object: a boolean or string, or something else. */
  datatype JsonValue = Setting(v: Value) | Foreign(id: nat)

  function AsJson(c: Config): map<Field, JsonValue> { map f | f in c :: Setting(c[f]) }

  /** isConfigDifferent on its 25 keys: `b` defines one that `a` does not hold with the same value. */
  predicate Differs(a: map<Field, JsonValue>, b: Config) {
    exists f :: Mapped(f) && f in b && !(f in a && a[f] == Setting(b[f]))
  }

  /** The settings the text of incus.cfg defines. */
  function ReadConfig(content: string): Config { Settled(Parsed(content)) }

  /** The current values overridden by the given ones, with the presence bit of the key recomputed. */
  function Merge(current: Config, input: Patch): Config {
    var merged := map f | f in current.Keys + input.values.Keys && !Unset(input, f) ::
                    if f in input.values then input.values[f] else current[f];
    merged[TsAuthKeyConfigured := Flag(TsAuthKey in merged && Truthy(merged[TsAuthKey]))]
  }

  /** The input has this key with the value `undefined`. */
  predicate Unset(input: Patch, f: Field) { f in input.keys && f !in input.values }

  /** The patches whose effect is read back: no quote or newline in a text, no `undefined` for a set variable. */
  predicate Clean(content: string, input: Patch) {
    NewlineFree(input.values) && forall f :: Mapped(f) ==> CleanAt(content, input, f)
  }

  predicate CleanAt(content: string, input: Patch, f: Field)
    requires Mapped(f)
  {
    && (f in input.values && input.values[f].Words? ==> '\'' !in input.values[f].text)
    && (Unset(input, f) ==> ShellName(f) !in Parsed(content))
  }

  predicate Agrees(f: Field, merged: Config, reread: Config) {
    f in reread ==> f in merged && merged[f] == reread[f]
  }

  lemma DecodeFormat(f: Field, values: Config, text: string)
    requires Mapped(f) && f in values && WellTyped(values) && ReadsBack(text, Format(f, values[f]))
    ensures Decode(f, text) == values[f] <==> !(values[f].Words? && '\'' in values[f].text)
  {
    if IsFlag(f) {
      assert '\'' !in Format(f, values[f]);
    }
  }

  lemma MergeAt(current: Config, input: Patch, f: Field)
    requires Mapped(f)
    ensures var merged := Merge(current, input);
      if f in input.values then f in merged && merged[f] == input.values[f]
      else if f in input.keys then f !in merged
      else (f in merged <==> f in current) && (f in merged ==> merged[f] == current[f])
  {
  }

  /** What re-reading one property gives, when no text has a newline. */
  lemma RereadAt(content: string, input: Patch, f: Field)
    requires input.Valid() && NewlineFree(input.values) && Mapped(f)
    ensures var was, reread := ReadConfig(content), ReadConfig(Rewrite(content, input));
      if f in input.values then
        f in reread && (reread[f] == input.values[f] <==> !(input.values[f].Words? && '\'' in input.values[f].text))
      else (f in reread <==> f in was) && (f in reread ==> reread[f] == was[f])
  {
    var name := ShellName(f);
    FieldNamedIs(f);
    RereadVariable(content, input, name);
    SettledAt(Parsed(content), f);
    SettledAt(Parsed(Rewrite(content, input)), f);
    if f in input.values {
      DecodeFormat(f, input.values, Parsed(Rewrite(content, input))[name]);
    }
  }

  lemma AgreesAt(content: string, input: Patch, f: Field)
    requires input.Valid() && NewlineFree(input.values) && Mapped(f)
    ensures Agrees(f, Merge(ReadConfig(content), input), ReadConfig(Rewrite(content, input)))
       <==> CleanAt(content, input, f)
  {
    MergeAt(ReadConfig(content), input, f);
    RereadAt(content, input, f);
    SettledAt(Parsed(content), f);
  }

  /** One property, when its own text has a newline. */
  lemma NewlineDisagrees(content: string, input: Patch, f: Field)
    requires input.Valid() && f in input.values && input.values[f].Words? && '\n' in input.values[f].text
    ensures !Agrees(f, Merge(ReadConfig(content), input), ReadConfig(Rewrite(content, input)))
  {
    PatchedIsDefined(content, input, f);
    ValuesHaveNoNewline(SplitLines(Rewrite(content, input)), ShellName(f));
    SettledAt(Parsed(Rewrite(content, input)), f);
    MergeAt(ReadConfig(content), input, f);
  }

  /**
   In-memory merge against re-reading: after an update the background sync finds nothing to do
   exactly when the patch is clean.
   */
  lemma MergeReadsBackIffClean(content: string, input: Patch)
    requires input.Valid()
    ensures !Differs(AsJson(Merge(ReadConfig(content), input)), ReadConfig(Rewrite(content, input)))
       <==> Clean(content, input)
  {
    var merged, reread := Merge(ReadConfig(content), input), ReadConfig(Rewrite(content, input));
    NoDifferenceIs(merged, reread);
    if NewlineFree(input.values) {
      forall f | Mapped(f) {
        AgreesAt(content, input, f);
      }
    } else {
      var f :| f in input.values && input.values[f].Words? && '\n' in input.values[f].text;
      assert Mapped(f);
      NewlineDisagrees(content, input, f);
    }
  }

  lemma NoDifferenceIs(merged: Config, reread: Config)
    ensures !Differs(AsJson(merged), reread) <==> forall f :: Mapped(f) ==> Agrees(f, merged, reread)
  {
  }

  /** For a clean patch the two agree in full: same properties defined, same values. */
  lemma CleanMergeIsReread(content: string, input: Patch, f: Field)
    requires input.Valid() && Clean(content, input) && Mapped(f)
    ensures var merged, reread := Merge(ReadConfig(content), input), ReadConfig(Rewrite(content, input));
      && (f in merged <==> f in reread)
      && (f in merged ==> merged[f] == reread[f])
  {
    MergeAt(ReadConfig(content), input, f);
    RereadAt(content, input, f);
    SettledAt(Parsed(content), f);
  }

  /** An update whose text has a single quote is undone by the next background sync, for every file. */
  lemma QuotedTextIsLost(content: string, text: string)
    requires '\'' in text
    ensures var input := Patch([JailImage], map[JailImage := Words(text)]);
      input.Valid() && Differs(AsJson(Merge(ReadConfig(content), input)), ReadConfig(Rewrite(content, input)))
  {
    var input := Patch([JailImage], map[JailImage := Words(text)]);
    assert !CleanAt(content, input, JailImage);
    MergeReadsBackIffClean(content, input);
  }

  // ---------------------------------------------------------------- the words of the boolean settings

  /** The word that stands for `on`, and the one that is written for off. */
  function OnWord(f: Field): string { if f == Enabled then "enabled" else "true" }

  function OffWord(f: Field): string { if f == Enabled then "disabled" else "false" }

  /** A boolean setting is on exactly for its one word; every other text reads as off. */
  lemma FlagIsRead(content: string, f: Field)
    requires IsFlag(f) && Mapped(f) && ShellName(f) in Parsed(content)
    ensures f in ReadConfig(content) && ReadConfig(content)[f] == Flag(Parsed(content)[ShellName(f)] == OnWord(f))
  {
    SettledAt(Parsed(content), f);
  }

  lemma FormatOfFlag(f: Field, on: bool)
    requires IsFlag(f) && Mapped(f)
    ensures var text := Format(f, Flag(on)); text == (if on then OnWord(f) else OffWord(f)) && '\'' !in text
  {
  }

  lemma FlagValue(values: Config, f: Field)
    requires WellTyped(values) && f in values && IsFlag(f)
    ensures values[f] == Flag(values[f] == Flag(true))
  {
  }

  lemma WordIsWritten(content: string, input: Patch, f: Field)
    requires input.Valid() && NewlineFree(input.values) && Mapped(f) && f in input.values && '\'' !in Format(f, input.values[f])
    ensures var after := Parsed(Rewrite(content, input));
      ShellName(f) in after && after[ShellName(f)] == Format(f, input.values[f])
  {
    FieldNamedIs(f);
    RereadVariable(content, input, ShellName(f));
  }

  /** An update writes one of its two words. */
  lemma FlagIsWritten(content: string, input: Patch, f: Field)
    requires input.Valid() && NewlineFree(input.values) && IsFlag(f) && Mapped(f) && f in input.values
    ensures var after := Parsed(Rewrite(content, input));
      ShellName(f) in after && after[ShellName(f)] == if input.values[f] == Flag(true) then OnWord(f) else OffWord(f)
  {
    FlagValue(input.values, f);
    FormatOfFlag(f, input.values[f] == Flag(true));
    WordIsWritten(content, input, f);
  }

  // ---------------------------------------------------------------- the presence bit

  /** Read from the file, the bit is there with the key's variable, and says whether that is empty. */
  lemma BitIsRead(content: string)
    ensures var c, vars := ReadConfig(content), Parsed(content);
      && (TsAuthKeyConfigured in c <==> ShellName(TsAuthKey) in vars)
      && (TsAuthKeyConfigured in c ==> c[TsAuthKeyConfigured] == Flag(vars[ShellName(TsAuthKey)] != ""))
  {
  }

  /** After the update a key that is not empty is set: by the patch, or else by the file. */
  predicate KeyIsSet(content: string, input: Patch) {
    if TsAuthKey in input.values then input.values[TsAuthKey] != Words("")
    else !Unset(input, TsAuthKey) && ShellName(TsAuthKey) in Parsed(content) && Parsed(content)[ShellName(TsAuthKey)] != ""
  }

  lemma BitOfMerged(current: Config, input: Patch)
    requires WellTyped(current) && WellTyped(input.values)
    ensures var merged := Merge(current, input);
      TsAuthKeyConfigured in merged
      && merged[TsAuthKeyConfigured] == Flag(TsAuthKey in merged && merged[TsAuthKey] != Words(""))
  {
    MergeAt(current, input, TsAuthKey);
  }

  /** The bit says just that, whatever the patch gives for the bit itself. */
  lemma PresenceBit(content: string, input: Patch)
    requires input.Valid()
    ensures var merged := Merge(ReadConfig(content), input);
      TsAuthKeyConfigured in merged && merged[TsAuthKeyConfigured] == Flag(KeyIsSet(content, input))
  {
    BitOfMerged(ReadConfig(content), input);
    MergeAt(ReadConfig(content), input, TsAuthKey);
    SettledAt(Parsed(content), TsAuthKey);
  }
}
