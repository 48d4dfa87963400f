/** From what the client sends to the step it causes (src/ftp/base_session.cpp:65-104,
    785-800 and the table of commands in src/ftp/constants.hpp:24-84). */
module Commands {
  import opened Helpers
  import opened SessionSpec
  import Wire
  import Like

  /** The command a name in upper case stands for; no name at all is an incomplete message. */
  function VerbNamed(name: string): Verb {
    if name == "" then NOTHING
    else if name == "USER" then USER
    else if name == "PASS" then PASS
    else if name == "SYST" then SYST
    else if name == "QUIT" then QUIT
    else if name == "PWD" then PWD
    else if name == "TYPE" then TYPE
    else if name == "PASV" then PASV
    else if name == "LIST" then LIST
    else if name == "FEAT" then FEAT
    else if name == "CDUP" then CDUP
    else if name == "CWD" then CWD
    else if name == "MKD" then MKD
    else if name == "RMD" then RMD
    else if name == "DELE" then DELE
    else if name == "STOR" then STOR
    else if name == "RETR" then RETR
    else if name == "SIZE" then SIZE
    else if name == "PBSZ" then PBSZ
    else if name == "PROT" then PROT
    else if name == "OPTS" then OPTS
    else UNSUPPORTED
  }

  function Name(verb: Verb): string {
    match verb
    case USER => "USER"
    case PASS => "PASS"
    case SYST => "SYST"
    case QUIT => "QUIT"
    case PWD => "PWD"
    case TYPE => "TYPE"
    case PASV => "PASV"
    case LIST => "LIST"
    case FEAT => "FEAT"
    case CDUP => "CDUP"
    case CWD => "CWD"
    case MKD => "MKD"
    case RMD => "RMD"
    case DELE => "DELE"
    case STOR => "STOR"
    case RETR => "RETR"
    case SIZE => "SIZE"
    case PBSZ => "PBSZ"
    case PROT => "PROT"
    case OPTS => "OPTS"
    case UNSUPPORTED => ""
    case NOTHING => ""
  }

  /** The completed control read as a step of the session. */
  function Spoken(message: string, env: Env): Event {
    var line := Wire.ParseMessage(message);
    Command(VerbNamed(line.command), line.argument, env)
  }

  lemma VerbOfName(verb: Verb)
    requires !verb.UNSUPPORTED? && !verb.NOTHING?
    ensures VerbNamed(Name(verb)) == verb
  {
    if NeedsNoLogin(verb) || verb.PWD? || verb.TYPE? || verb.PASV? {
      EarlyVerb(verb);
    } else if verb.LIST? || verb.FEAT? || verb.CDUP? || verb.CWD? || verb.MKD? || verb.RMD? {
      MiddleVerb(verb);
    } else {
      LateVerb(verb);
    }
  }

  lemma EarlyVerb(verb: Verb)
    requires verb.USER? || verb.PASS? || verb.SYST? || verb.QUIT? || verb.PWD? || verb.TYPE? || verb.PASV?
    ensures VerbNamed(Name(verb)) == verb
  {
  }

  lemma MiddleVerb(verb: Verb)
    requires verb.LIST? || verb.FEAT? || verb.CDUP? || verb.CWD? || verb.MKD? || verb.RMD?
    ensures VerbNamed(Name(verb)) == verb
  {
  }

  lemma LateVerb(verb: Verb)
    requires verb.DELE? || verb.STOR? || verb.RETR? || verb.SIZE? || verb.PBSZ? || verb.PROT? || verb.OPTS?
    ensures VerbNamed(Name(verb)) == verb
  {
  }

  lemma NameOfVerb(name: string)
    ensures var verb := VerbNamed(name); verb.UNSUPPORTED? || name == Name(verb)
  {
  }

  /** A command of the table reaches its handler however its letters are cased, with the
      argument untouched, and no other word reaches it. */
  lemma SpokenCommand(spelled: string, argument: string, env: Env, verb: Verb)
    requires ' ' !in spelled && !verb.UNSUPPORTED? && !verb.NOTHING?
    ensures Spoken(spelled + " " + argument + Wire.CRLF, env) == Command(verb, argument, env) <==>
            Spells(spelled, Name(verb))
  {
    Wire.ParseOfFormatted(spelled, argument);
    VerbOfName(verb);
    NameOfVerb(Upper(spelled));
    NameIsCapital(verb);
    SpellingIs(spelled, Name(verb));
  }

  /** The same letters, in any case. */
  predicate Spells(spelled: string, name: string) {
    |spelled| == |name| && forall i :: 0 <= i < |name| ==> Like.SameLetter(spelled[i], name[i])
  }

  predicate IsCapital(name: string) {
    forall i :: 0 <= i < |name| ==> 'A' <= name[i] <= 'Z'
  }

  lemma SpellingIs(spelled: string, name: string)
    requires IsCapital(name)
    ensures Upper(spelled) == name <==> Spells(spelled, name)
  {
    UpperIs(spelled);
    if Spells(spelled, name) {
      forall i | 0 <= i < |name|
        ensures Upper(spelled)[i] == name[i]
      {
        assert Like.SameLetter(spelled[i], name[i]);
      }
    }
  }

  lemma NameIsCapital(verb: Verb)
    ensures IsCapital(Name(verb))
  {
  }

  /** A line with a space gives no command exactly when nothing stands before the space. */
  lemma SpokenNothing(spelled: string, argument: string, env: Env)
    requires ' ' !in spelled
    ensures Spoken(spelled + " " + argument + Wire.CRLF, env).verb == NOTHING <==> spelled == ""
  {
    Wire.ParseOfFormatted(spelled, argument);
    NameOfVerb(Upper(spelled));
  }
}
