/**
 * The warning channel of the wiki extension (BMWExtension.php): every
 * non-fatal problem is appended to one HTML string as a list item, and the
 * page shows the whole list in a warning box after the report.
 */
module Diagnostics {
  import opened Php

  /** A value computed together with the warnings its computation raised, in order. */
  datatype Logged<+T> = Logged(value: T, warnings: seq<string>)

  /** The list item `warn` appends for one message (BMWExtension.php:66). */
  function Item(message: string): string {
    "<li>" + message + "</li>"
  }

  /** The accumulated list items of a sequence of messages. */
  function Items(messages: seq<string>): (r: string)
    ensures messages == [] <==> r == ""
  {
    if messages == [] then ""
    else Items(messages[..|messages| - 1]) + Item(messages[|messages| - 1])
  }

  lemma {:induction false} ItemsAppend(a: seq<string>, b: seq<string>)
    ensures Items(a + b) == Items(a) + Items(b)
    decreases |b|
  {
    if b == [] {
      assert a + b == a;
    } else {
      var init := b[..|b| - 1];
      assert (a + b)[..|a + b| - 1] == a + init;
      ItemsAppend(a, init);
    }
  }

  const WarningsOpen: string := "<div class=\"warning\"><b>Warnings were generated during the execution of function</b><ol>"
  const WarningsClose: string := "</ol></div>"

  /**
   * The extension's side of a report request: the accumulated warnings, the
   * debug level and the site configuration the formatters and row limits read.
   */
  class Context {
    /** `$this->warnings`: the list items appended so far (null before the first warning). */
    var warnings: string
    /** The messages behind `warnings`, in the order they were raised. */
    ghost var messages: seq<string>
    /** `$this->debug`, settable as the `debug` parameter. */
    var debug: Option<string>
    /** Whether cells are rendered as raw HTML rather than wiki text. */
    const rawHTML: bool
    /** The Bugzilla server base URL. */
    const bzserver: string
    /** The interwiki prefix for bug links, if one is configured. */
    const interwiki: Option<string>
    /** The site-wide row limits (`maxrows`, `maxrowsbar` in the configuration). */
    const maxrowsFromConfig: nat
    const maxrowsForBarChartFromConfig: nat

    ghost predicate Valid()
      reads this`warnings, this`messages
    {
      warnings == Items(messages)
    }

    constructor (rawHTML: bool, bzserver: string, interwiki: Option<string>, maxrows: nat, maxrowsbar: nat)
      ensures Valid() && messages == [] && debug == None
      ensures this.rawHTML == rawHTML && this.bzserver == bzserver && this.interwiki == interwiki
      ensures maxrowsFromConfig == maxrows && maxrowsForBarChartFromConfig == maxrowsbar
    {
      warnings := "";
      messages := [];
      debug := None;
      this.rawHTML := rawHTML;
      this.bzserver := bzserver;
      this.interwiki := interwiki;
      maxrowsFromConfig := maxrows;
      maxrowsForBarChartFromConfig := maxrowsbar;
    }

    /** `warn`: append one list item; nothing already recorded is touched (BMWExtension.php:64-67). */
    method Warn(message: string)
      requires Valid()
      modifies this`warnings, this`messages
      ensures Valid()
      ensures messages == old(messages) + [message]
      ensures warnings == old(warnings) + Item(message)
    {
      warnings := warnings + Item(message);
      messages := messages + [message];
      assert messages[..|messages| - 1] == old(messages);
    }

    /** Raise the warnings of a pure computation, in order. */
    method WarnAll(raised: seq<string>)
      requires Valid()
      modifies this`warnings, this`messages
      ensures Valid()
      ensures messages == old(messages) + raised
    {
      for i := 0 to |raised|
        invariant Valid()
        invariant messages == old(messages) + raised[..i]
      {
        Warn(raised[i]);
        assert raised[..i + 1] == raised[..i] + [raised[i]];
      }
      assert raised[..|raised|] == raised;
    }

    /**
     * `getWarnings`: null when nothing was warned, otherwise every item raised
     * so far, in order, inside one warning box (BMWExtension.php:69-75).
     */
    function GetWarnings(): (r: Option<string>)
      requires Valid()
      reads this`warnings, this`messages
      ensures r.None? <==> messages == []
      ensures r.Some? ==> r.value == WarningsOpen + Items(messages) + WarningsClose
    {
      if TruthyStr(warnings) then Some(WarningsOpen + warnings + WarningsClose) else None
    }
  }

  /** No message is ever lost: the items of earlier messages stay a prefix of the list. */
  lemma {:induction false} WarningsOnlyGrow(before: seq<string>, raised: seq<string>)
    ensures Items(before + raised) == Items(before) + Items(raised)
    ensures |Items(before)| <= |Items(before + raised)|
  {
    ItemsAppend(before, raised);
  }
}
