// showSelector: the top matches plus a "Create new" entry, and the choice
// among them, made by the user or, without a terminal, by the launcher.

module Selector {
  import opened Folders

  /** At most this many matches are offered. */
  const MaxMatches: nat := 3

  /** One entry of the picker; `folder` is None for "Create new". */
  datatype SelectOption = SelectOption(text: string, folder: Option<TryFolder>)

  /** The interactive picker's answer: an index into the options, or an abort (Ctrl+C). */
  datatype Prompt = Cancelled | Chose(index: nat)

  /** The user, as a function of how many options the picker shows. */
  type Picker = nat -> Prompt

  /** What the picker library promises: a chosen index is one of the options shown. */
  ghost predicate PickerInRange(pick: Picker)
  {
    forall n: nat :: pick(n).Chose? ==> pick(n).index < n
  }

  /** What showSelector ends in: a folder (None meaning "create new"), or the process exiting. */
  datatype Selection = Selected(folder: Option<TryFolder>) | Aborted

  /** How many matches are offered. */
  function Shown(n: nat): (k: nat)
    ensures k <= n && k <= MaxMatches
    ensures k == n || k == MaxMatches
  {
    if n > MaxMatches then MaxMatches else n
  }

  function DigitChar(d: nat): char
    requires d < 10
  {
    "0123456789"[d]
  }

  /** %d of a natural number. */
  function NatDecimal(n: nat): string
  {
    if n < 10 then [DigitChar(n)] else NatDecimal(n / 10) + [DigitChar(n % 10)]
  }

  /** %d of an integer. */
  function Decimal(n: int): string
  {
    if n < 0 then "-" + NatDecimal(-n) else NatDecimal(n)
  }

  function FolderLabel(f: TryFolder): string
  {
    f.name + " (" + f.date + ", opened " + Decimal(f.timesOpened) + " times)"
  }

  function CreateLabel(query: string): string
  {
    "Create new: " + query
  }

  /** The options of the picker: the top matches in rank order, then "Create new". */
  method BuildOptions(matches: seq<TryFolder>, query: string) returns (options: seq<SelectOption>)
    ensures |options| == Shown(|matches|) + 1
    ensures forall i :: 0 <= i < |options| - 1 ==>
      options[i] == SelectOption(FolderLabel(matches[i]), Some(matches[i]))
    ensures options[|options| - 1] == SelectOption(CreateLabel(query), None)
  {
    var top := matches;
    if |top| > MaxMatches {
      top := top[..MaxMatches];
    }

    options := [];
    for i := 0 to |top|
      invariant |options| == i
      invariant forall k :: 0 <= k < i ==> options[k] == SelectOption(FolderLabel(top[k]), Some(top[k]))
    {
      options := options + [SelectOption(FolderLabel(top[i]), Some(top[i]))];
    }

    options := options + [SelectOption(CreateLabel(query), None)];
  }

  /** showSelector. Without a terminal the first option is taken; with one, the
      user's option, or an abort when the user cancels. */
  method ShowSelector(matches: seq<TryFolder>, query: string, interactive: bool, pick: Picker)
    returns (selection: Selection)
    requires PickerInRange(pick)
    ensures !interactive ==> selection == Selected(if |matches| > 0 then Some(matches[0]) else None)
    ensures interactive && pick(Shown(|matches|) + 1).Cancelled? ==> selection == Aborted
    ensures interactive && pick(Shown(|matches|) + 1).Chose? ==>
      var k := pick(Shown(|matches|) + 1).index;
      selection == Selected(if k < Shown(|matches|) then Some(matches[k]) else None)
  {
    var options := BuildOptions(matches, query);

    if !interactive {
      if options[0].folder.Some? {
        return Selected(options[0].folder);
      }
      return Selected(None);
    }

    match pick(|options|)
    case Cancelled =>
      selection := Aborted;
    case Chose(index) =>
      selection := Selected(options[index].folder);
  }
}
