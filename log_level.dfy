/** The four log levels the link managers report through `onLog`. */
module Logging {

  datatype LogLevel = INFO | WARN | ERROR | DEBUG {

    /** The one-letter tag each level carries. */
    function Tag(): (t: char)
      ensures t in "IWED"
      ensures this == INFO <==> t == 'I'
      ensures this == WARN <==> t == 'W'
      ensures this == ERROR <==> t == 'E'
      ensures this == DEBUG <==> t == 'D'
    {
      match this
      case INFO => 'I'
      case WARN => 'W'
      case ERROR => 'E'
      case DEBUG => 'D'
    }
  }
}
